# LinkedIn job search on Weaviate: a Dafny model

The repository has three parts, each built around a Weaviate collection called
`linkedin_jobs`:

* **The loader** (`app/io.py`) creates or fetches the collection. It downloads
  the Kaggle LinkedIn postings dataset unless it is already on disk, reads
  `data/linkedin-job-postings/postings.csv`, and keeps five columns: `title`,
  `description`, `company_name`, `location` and `job_id`. It inserts the table
  in slices of 1000 records with `insert_many`, then walks the collection to
  report how many objects were vectorised. It closes the client whatever
  happened.
* **The exporter** (`app/save_embeddings.py`) walks the collection with its
  vectors. It collects one `(job_id, embedding)` row per object. Every 50000
  rows it writes the table to a numbered Parquet part-file and starts an empty
  one. After the last object it writes what is left.
* **The dashboard** (`streamlit_app.py`) has several steps:
  * It checks that three environment variables are set.
  * It takes a prompt from the chat box or from one of three example buttons.
  * It removes quotes from the prompt, strips it and lower-cases it, then puts
    it into the GraphQL template of the chosen search mode (BM25, Vector or
    Hybrid). The result limit is bounded per mode.
  * It types a header above the results, word by word.

## How the model is built

* `Weaviate` models the service as the scripts see it: a `Client` class with
  the set of collection names, the log of `insert_many` calls and an open
  flag.
* `Chunking` defines Python's `range(0, len(s), c)` slicing, both the loader's
  `dataframe_chunks` and the exporter's rollover. It proves the slices' count,
  sizes, positions and concatenation.
* `Strings` models the `str` operations used: `f"{n}"`, `replace`, `strip`,
  `lower` and `split()`.
* `Export` models the export loop as a method over the iterator's items. It is
  proved to write exactly the batch-size chunks of the rows. The k-th chunk
  goes to the k-th part path.
* `Ingest` models the loader's functions as methods on the client and on a
  `Disk` object.
* `Dashboard` models the dashboard's input handling.

The service's answers and failures are arguments:
* which call fails;
* what the iterator yields;
* what the CSV holds;
* what a download brings.

Three behaviours of the code are modelled as written:

* **The exporter's `file_path` grows.** Each part's name is built from the
  previous part's name, so the third file is
  `data/linkedin-job-embeddings_1.parquet_2.parquet_3.parquet`.
  `Export.PartPath` reproduces this. `Export.PartPathsDistinct` shows that no
  two parts collide anyway.
* **`get_env_vars` ignores its argument.** It walks the global `ENV_VARS`.
  Its own loop exits at the first unset variable, so the later "Environment
  variables not set" check can never fire (`Dashboard.LoadSettings`).

## Model

| member | source | states |
|---|---|---|
| Chunking.Chunks | app/io.py:69-71 | dataframe_chunks: the slices starting at 0, c, 2c, ... each ending c later or at the end (its properties are the lemmas below) |
| Chunking.CeilDiv | app/io.py:69-71 | the number of slices of size at most c covering n elements is the least k with n <= k*c |
| Chunking.ChunksFlatten | app/io.py:69-71 | the slices, concatenated in order, give back the whole sequence: nothing dropped or repeated |
| Chunking.ChunksCount | app/io.py:69-71 | there are ceil(n / c) slices, and none exactly when the sequence is empty |
| Chunking.ChunksAt | app/io.py:69-71 | the i-th slice is s[i*c .. (i+1)*c] clipped to the end of s |
| Chunking.ChunksElement | app/io.py:69-71 | element k of slice j is element j*c + k of the whole sequence |
| Chunking.ChunksSizes | app/io.py:69-71 | every slice but the last has c elements; the last has the remaining 1 to c |
| Chunking.ChunksAppend | app/save_embeddings.py:35-46 | appending 1 to c elements after k whole slices adds exactly one slice holding them |
| Strings.Decimal | app/save_embeddings.py:40 | f"{n}" is a non-empty string of digits without a leading zero |
| Strings.DecimalRoundTrip | app/save_embeddings.py:40 | reading the digits back gives n, so different part numbers format differently |
| Strings.Remove | streamlit_app.py:293 | replace(c, "") leaves no c and keeps every other character as often as it occurred |
| Strings.RemoveAppend | streamlit_app.py:293 | replace(c, "") on a concatenation is the concatenation of the replaced parts, so the kept characters keep their order |
| Strings.RemoveSingle | streamlit_app.py:293 | a single character is dropped when it is c and kept otherwise; with RemoveAppend this fixes the result for every string |
| Strings.RemoveAbsent | streamlit_app.py:293 | replacing a character that does not occur changes nothing |
| Strings.LeadingSpaces | streamlit_app.py:297 | the length of the leading run of whitespace (Python's isspace set), followed by a non-space or the end |
| Strings.TrailingSpaces | streamlit_app.py:297 | the length of the trailing run of whitespace, preceded by a non-space or the start |
| Strings.Strip | streamlit_app.py:297 | strip() is the contiguous part of the string after its leading whitespace, followed only by whitespace, neither starting nor ending with whitespace |
| Strings.StripAllSpace | streamlit_app.py:297 | a string of whitespace only strips to the empty string |
| Strings.Lower | streamlit_app.py:297 | lower() on ASCII: same length, no upper-case ASCII letter left, each one replaced by its lower-case letter, every other character kept |
| Strings.StripLowerKeeps | streamlit_app.py:297 | strip() followed by the ASCII-only Lower adds no non-letter character that was not already there |
| Strings.Split | streamlit_app.py:313 | split(): the maximal runs of non-whitespace, in order (characterised by SplitSpace, SplitWord and SplitWords) |
| Strings.SplitSpace | streamlit_app.py:313 | a whitespace character cuts the text into two parts that split independently: split(a + x + b) == split(a) + split(b) |
| Strings.SplitWord | streamlit_app.py:313 | a non-empty text without whitespace splits into itself alone |
| Strings.WordEnd | streamlit_app.py:313 | the length of the leading run of non-whitespace, followed by whitespace or the end |
| Strings.SplitWords | streamlit_app.py:313 | every piece of split() is non-empty and free of whitespace |
| Strings.JoinSpacedSnoc | streamlit_app.py:313-314 | adding one more word to the header appends that word and one space |
| Strings.SplitJoinSpaced | streamlit_app.py:313-314 | splitting words joined by single spaces gives the words back |
| Weaviate.Client.constructor | app/io.py:21-25 | a new connection is open, has no inserts, and sees the collections the cluster already holds |
| Weaviate.Client.Create | app/io.py:32-38 | create succeeds exactly when the name is free and the service does not fail; only then is the name added |
| Weaviate.Client.InsertMany | app/io.py:77 | an accepted insert_many call is appended to the log; a rejected one changes nothing |
| Weaviate.Client.Close | app/io.py:101 | close leaves the client closed, with collections and inserts unchanged |
| Export.RowOf | app/save_embeddings.py:33-35 | the row of an item is its job_id property and its default vector |
| Export.Rows | app/save_embeddings.py:32-35 | one row per item, in iterator order (its properties are ExportKeepsEveryRow and the loop's contract) |
| Export.PartPath | app/save_embeddings.py:23-50 | file_path after k flushes: the prefix with "_1.parquet" up to "_k.parquet" appended (its properties are the PartPath lemmas below) |
| Export.FirstMissing | app/save_embeddings.py:32-34 | the first item lacking job_id or the default vector: every item before it has both |
| Export.LabelAt | app/save_embeddings.py:38-51 | the j-th file written holds the j-th chunk under the path of part j + 1 |
| Export.ExportEmbeddings | app/save_embeddings.py:23-51 | with every key present, the files written are the batch-size chunks of the rows, the k-th at PartPath(k); on a KeyError, the full batches before the bad item stay written and the partial table is lost |
| Export.SavePart | app/save_embeddings.py:40-41 | saving a part adds its number's suffix to file_path and writes the table to the file of that name |
| Export.Stopped | app/save_embeddings.py:32-34 | the KeyError at the first bad item leaves exactly the files flushed before its batch |
| Export.Flush | app/save_embeddings.py:38-51 | after n full files, writing the remaining 1 to batch-size rows as part n + 1 gives the files of all the rows |
| Export.ExportKeepsEveryRow | app/save_embeddings.py:32-51 | the files, concatenated in write order, hold one (job_id, default vector) row per item, in item order |
| Export.ExportFileSizes | app/save_embeddings.py:38-51 | M items give ceil(M / B) files, none for M = 0; all but the last have B rows, and the last has 1 to B |
| Export.ExportPartNumbers | app/save_embeddings.py:40-50 | the first file is prefix_1.parquet, and each later path is the previous one plus "_<part>.parquet" |
| Export.PartPathExtends | app/save_embeddings.py:40 | each part path strictly extends every earlier one |
| Export.PartPathsDistinct | app/save_embeddings.py:40 | no two part-files share a path, so no flush overwrites an earlier file |
| Export.ExportScenario | app/save_embeddings.py:29-51 | 120000 items with batch size 50000 give files of 50000, 50000 and 20000 rows |
| Export.ThirdPartPath | app/save_embeddings.py:23-50 | the third file is data/linkedin-job-embeddings_1.parquet_2.parquet_3.parquet |
| Ingest.Project | app/io.py:64 | selecting the five columns fails exactly when one is missing; otherwise there is one record per row, with exactly those keys and that row's values |
| Ingest.SubmittedRecordsHaveFields | app/io.py:64-77 | every record of every submitted slice has exactly the five columns, and its job_id is that of row j*1000+k |
| Ingest.SubmittedRecord | app/io.py:64-77 | record k of slice j is the projection of row j*1000+k |
| Ingest.RecordHasFields | app/io.py:64 | each projected record has exactly the five columns and its row's job_id |
| Ingest.FieldNames | app/io.py:64 | the kept columns are title, description, company_name, location and job_id |
| Ingest.SubmittedRecordsAreTheTable | app/io.py:69-77 | the logged insert_many calls all go to one collection, and their records, concatenated in call order, are the projected table: every row once, in order |
| Ingest.UploadScenario | app/io.py:66-77 | 2500 rows go out in three calls of 1000, 1000 and 500 records |
| Ingest.RegistryHoldsCollection | app/io.py:28-43 | create_collection adds at most linkedin_jobs; unless the service fails, linkedin_jobs is present afterwards, and an existing one is kept |
| Ingest.RegistryIdempotent | app/io.py:28-43 | after a first run of create_collection in which the service did not fail, a second run changes nothing |
| Ingest.CreateCollection | app/io.py:28-43 | the handle always names linkedin_jobs, whether created or fetched after an exception; the cluster gains only that name |
| Ingest.Disk.constructor | app/io.py:46-51 | the disk starts with the given files and no download started |
| Ingest.DownloadIdempotent | app/io.py:46-51 | once a download has brought the path, a second call leaves the disk as it is |
| Ingest.DownloadKaggleDataset | app/io.py:46-51 | the downloader starts exactly when the path is not an existing file; otherwise nothing changes |
| Ingest.UploadData | app/io.py:54-79 | a missing CSV or column ends the upload before any insert; otherwise the 1000-record slices are inserted in order, and when the service rejects one the log holds exactly those before it |
| Ingest.TestData | app/io.py:82-91 | reports the object count and the last object's vector size and property keys; an empty collection leaves `item` unbound, and a missing default vector is a KeyError |
| Ingest.Pipeline | app/io.py:94-101 | the client is closed in every case; the collection, the disk and the insert log end as create_collection and upload_data leave them for each outcome; test_data runs exactly when the upload completed, and its report counts every iterated object and describes the last |
| Dashboard.Getenv | streamlit_app.py:25 | os.environ.get(name, ""): the value, or "" for an unset name |
| Dashboard.FirstUnset | streamlit_app.py:24-29 | the first required variable that is unset or empty; every one before it is set |
| Dashboard.GetEnvVars | streamlit_app.py:17-31 | returns the three variables and their values exactly when all are set; otherwise exits with "<first unset> not set" |
| Dashboard.FirstUnsetAt | streamlit_app.py:24-28 | the loop's exit point is the first unset variable |
| Dashboard.LoadSettings | streamlit_app.py:35-43 | start-up exits exactly when a variable is unset, always with get_env_vars's message; otherwise it holds the three non-empty values |
| Dashboard.ButtonPressed | streamlit_app.py:263-283 | the prompt of the leftmost clicked button, or "" exactly when none was clicked |
| Dashboard.Prompt | streamlit_app.py:286 | typed text wins over a button; there is no prompt exactly when both are empty |
| Dashboard.Sanitise | streamlit_app.py:293 | the prompt has no double or single quote left, and every other character is kept as often as it occurred |
| Dashboard.SanitiseAppend | streamlit_app.py:293 | sanitising a concatenation sanitises each part, so the kept characters keep their order |
| Dashboard.SanitiseSingle | streamlit_app.py:293 | a single character is dropped when it is a quote and kept otherwise |
| Dashboard.SanitiseKeepsQuoteFree | streamlit_app.py:293 | a prompt without quotes is unchanged |
| Dashboard.Format | streamlit_app.py:298 | str.format of a template: each piece in order, the limit in decimal and the input in their slots |
| Dashboard.HeadHasNoQuote | streamlit_app.py:70-73 | the part the three templates share before the limit has no double quote |
| Dashboard.ModesAreDescribed | streamlit_app.py:127-143 | every radio option has a mode_descriptions entry, Hybrid is preselected, and the limits are 30, 15 and 15 |
| Dashboard.SliderLimit | streamlit_app.py:243-248 | the limit is between 1 and the mode's maximum: 3 until moved, then the value it was moved to |
| Dashboard.BuildQuery | streamlit_app.py:293-298 | no query is sent exactly when the sanitised prompt is empty |
| Dashboard.QueryInputHasNoQuotes | streamlit_app.py:293-298 | the text put into the template has no double quote |
| Dashboard.QueryText | streamlit_app.py:296-298 | the query sent is the shared head, the limit in decimal, the mode's own arguments with the stripped, lower-cased prompt between two double quotes, and the shared tail |
| Dashboard.TemplateText | streamlit_app.py:70-125 | a template of the shared shape filled in, written out |
| Dashboard.BlankPromptQueriesEmpty | streamlit_app.py:293-298 | a whitespace-only prompt still sends a query, with an empty input |
| Dashboard.TemplateQuotesInput | streamlit_app.py:70-125 | when neither the mode's arguments before the input nor the input contain a double quote, the text between the first two double-quote characters of the filled template is the input |
| Dashboard.OpeningsHaveNoQuote | streamlit_app.py:73-111 | each mode's arguments before "{input}" have no double quote |
| Dashboard.QueryQuotesPrompt | streamlit_app.py:296-298 | in every query sent, the text between the first two double-quote characters is exactly the sanitised, stripped, lower-cased prompt |
| Dashboard.TypeHeader | streamlit_app.py:305-318 | full_response is the words of first_response (the generated text, else the default header), in order, each followed by one space |
| Dashboard.DefaultHeaderWords | streamlit_app.py:305-313 | for a mode name without whitespace, the default header splits into "Here", "are", "the", "results", "from", "the", the mode's name and "search:" |
| Dashboard.HeaderKeepsWords | streamlit_app.py:312-318 | splitting the typed header gives back the words of first_response |

## Left out

- Network, authentication and `.env` loading (`load_dotenv`, the `FileNotFoundError` when `.env` is missing, `connect_to_wcs` and `connect_to_weaviate_cloud`) are I/O. The environment is a map argument.
- What the service does with objects (OpenAI vectorising, storage, BM25/vector/hybrid ranking) is outside the scripts. Its effects are arguments: which call fails, and what the iterator yields.
- In `create_collection` and `collections.get`, the vectoriser and generative configuration are not modelled. A handle is its name.
- pandas and Parquet: a DataFrame is a sequence of rows (or of column-to-value maps). `to_parquet` is an entry in the log of written files. CSV parsing is left out: the parsed table is an argument.
- `Ingest.Rectangular`: every row of the CSV table is assumed to have exactly the table's columns, which is how pandas builds frames.
- Vector numerics: embeddings are carried but never computed on, so their element type is generic.
- The `print` calls, `st.error`, `st.info`, the chat history and every Streamlit widget's rendering. The widgets' values (typed text, clicked buttons, the radio choice, the slider position) are arguments.
- Running the GraphQL query (`conn.query`), the results loop (streamlit_app.py:304-330), and accumulating `response` at line 319. The header for a result page is modelled by `Dashboard.TypeHeader`.
- `Dashboard.FirstResponse` picks the generated text or the default header. It has no contract of its own: it only selects between two given strings. `Dashboard.DefaultHeaderWords` states what the default header splits into.
- `time.sleep` and the cursor placeholder updates in the header loop are timing and display.
- Strings.Lower: only ASCII letters are lowered. Python's `str.lower` also lowers non-ASCII letters, and for some it changes the length (`'İ'.lower()` is `i` followed by U+0307).
- Strings.StripLowerKeeps: holds for the ASCII-only Lower. For Python's full `lower` it fails, since `'İ'.lower()` brings in the combining mark U+0307.
- Dashboard.QueryQuotesPrompt: the quoted text is found by plain double-quote characters, and GraphQL escape sequences are not modelled. The sanitised prompt may keep a backslash, so a prompt ending in `\` turns the template's closing quote into an escaped one for the GraphQL parser, which then reads the string further.
- `sys.exit` is modelled as a result value (`Exited`, `Exit`). The process does not end inside the model.
- Ingest.DownloadKaggleDataset: the script's entry point (app/io.py:104-106) passes the dataset's web address as `kaggle_db_path`, which `download_kaggle_dataset` then tests as a local file name. The model takes any path as an argument and does not fix that address.
- Export.ExportEmbeddings: a failing `to_parquet` (app/save_embeddings.py:41,51) is not modelled. Every write is assumed to succeed and only appends to the log of written files.
- Ingest.UploadData: an exception inside `insert_many` is modelled as a rejected call that ends the upload. The objects the service may have stored before failing are not recorded.
