# System Oracle collector: process filter

This project models the process filter of the System Oracle collector
(`collector/main.cpp`), the endpoint agent that samples the running
processes of a macOS host and picks out the ones that are developer tools
(editors, compilers, build tools, interpreters, version control).

It has two parts, written the way the C++ is written:

- **The classifier** (`classifier.dfy`, module `Classifier`): pure
  functions. `IsDevelopmentTool` asks, in list order and stopping at the
  first hit, whether any of sixteen fixed indicator strings occurs in the
  executable path. `Find` models the string-view search it uses: the first
  position of a contiguous, case-sensitive match, or "not found".
- **The sampler** (`collector.dfy`, module `Collector`): `GetProcesses` is a
  method with the source's loop. It walks the first `actual_count` entries of
  the pid buffer. It skips pid 0 and pids whose path lookup fails. It keeps
  the pids whose path the classifier accepts, builds a `ProcessInfo` for each
  and appends it to the result. It is proved equal to the specification
  function `Collected`, and the lemmas beside it state what `Collected`
  guarantees. The name of each record is derived by `NameOf`
  (`names.dfy`, module `Names`): the text after the last `/`, or the whole
  path when there is none.

The operating system is represented by parameters:

- `bytesNeeded` is the answer of the size query (`proc_listpids` with no
  buffer).
- `buffer` and `actualCount` are the filled pid buffer and the number of
  entries the second query reported.
- `pidPath` is the per-pid path lookup (`proc_pidpath`). It gives a return
  code and the path text.

Two points where the code and its own comments part ways.
The model follows the code in both:

- The comment at `collector/main.cpp:36` speaks of a "case-insensitive-like"
  search. The search is an exact, case-sensitive substring match.
  `UpperCaseNodeIsNotDevelopmentTool` shows this.
- A record is meant to carry the executable path. Line 77 assigns the
  boolean `true` to the `path` string, so every record stores the
  one-character string with character code 1 (`StoredPath`).
  `StoredPathIsNeverThePath` proves the stored path never equals the path
  the record was classified by.

The program has no JSON encoder and no HTTP shipper: libcurl is only
initialised (collector/main.cpp:95).

## Model

| member | source | states |
|---|---|---|
| `Classifier.Find` | collector/main.cpp:37 | The search returns the first position at or after the start where the pattern occurs contiguously, and "not found" exactly when it occurs nowhere from there on |
| `Classifier.AnyIndicatorIn` | collector/main.cpp:33-38 | The short-circuit scan of an indicator list is true iff some indicator of the list occurs in the path |
| `Classifier.IsDevelopmentTool` | collector/main.cpp:26-39 | A path is a developer tool iff one of the sixteen fixed indicators occurs in it as a contiguous, case-sensitive substring |
| `Classifier.AnyIndicatorOrderIrrelevant` | collector/main.cpp:29-38 | Reordering the indicator list (any permutation) does not change the classification |
| `Classifier.DevelopmentToolEmbedded` | collector/main.cpp:37 | Matching is plain substring containment: any path embedding a developer-tool path is a developer tool |
| `Classifier.IndicatorMakesDevelopmentTool` | collector/main.cpp:33-38 | A path holding any listed indicator at any position is a developer tool |
| `Classifier.NoIndicatorNotDevelopmentTool` | collector/main.cpp:33-38 | A path holding none of the indicators is not a developer tool |
| `Classifier.MissingCharNoOccurrence` | collector/main.cpp:37 | A pattern containing a character absent from the path does not occur in it |
| `Classifier.ShortPathNotDevelopmentTool` | collector/main.cpp:29-31 | No path shorter than three characters (the shortest indicator, "gcc") is a developer tool |
| `Classifier.UpperCaseNodeIsNotDevelopmentTool` | collector/main.cpp:36-37 | Case matters: "/USR/BIN/NODE" is not a developer tool, despite the comment about case |
| `Classifier.ListLacksEveryIndicator` | collector/main.cpp:29-31 | None of the sixteen indicators occurs in "/bin/ls" |
| `Classifier.ListIsNotDevelopmentTool` | collector/main.cpp:29-38 | "/bin/ls" is not a developer tool |
| `Classifier.NodePathIsDevelopmentTool` | collector/main.cpp:29-38 | "/usr/local/bin/node" is a developer tool (indicator "node") |
| `Classifier.EditorBundleIsDevelopmentTool` | collector/main.cpp:29-38 | Every path through a "Code.app" bundle, such as the Visual Studio Code executable, is a developer tool |
| `Names.LastIndexOf` | collector/main.cpp:80 | The last-occurrence search returns an index holding the character with no later occurrence, or "not found" exactly when the character is absent |
| `Names.NameOf` | collector/main.cpp:80-83 | The record name is a suffix of the path with no '/', preceded by a '/' or equal to the whole path; it is the whole path exactly when the path has no '/' |
| `Names.LastComponentUnique` | collector/main.cpp:80-83 | Only one string is a slash-free suffix that is the whole path or follows a '/', so the contract of NameOf fixes its result |
| `Names.NameOfJoin` | collector/main.cpp:80-83 | A directory, a '/', and a slash-free file name give back that file name |
| `Names.CompilerName` | collector/main.cpp:80-83 | "/usr/bin/gcc-12" is named "gcc-12" |
| `Collector.Examined` | collector/main.cpp:54-61 | The entries examined are the first actual_count entries of the buffer, none when that count is not positive |
| `Collector.Kept` | collector/main.cpp:63-72 | A listed pid yields a record iff it is non-zero, its path lookup returns a positive code and its path is a developer tool |
| `Collector.RecordFor` | collector/main.cpp:75-84 | A kept pid yields a record with that pid, is_dev_tool true, the name derived from its looked-up path, and the path field holding the character 1 |
| `Collector.Collected` | collector/main.cpp:61-87 | At most one record per examined entry; every record has a non-zero pid, a successful path lookup, a path the classifier accepts, is_dev_tool true, the derived name and the stored path |
| `Collector.StoredPathIsNeverThePath` | collector/main.cpp:76-77 | No record stores the path it was classified by |
| `Collector.CollectedAppend` | collector/main.cpp:61-87 | Sampling a concatenated listing gives the concatenation of the two samples: the loop has no state beyond the list it builds |
| `Collector.KeptIndicesExact` | collector/main.cpp:61-87 | The positions that yield records are exactly the positions whose pid is non-zero, has a successful lookup and a developer-tool path |
| `Collector.KeptIndicesIncreasing` | collector/main.cpp:61-84 | Those positions are strictly increasing |
| `Collector.CollectedOrder` | collector/main.cpp:61-84 | The j-th record is the record of the pid at the j-th kept position, so the output is an order-preserving selection from the listing, one record per kept position |
| `Collector.CollectedPidCount` | collector/main.cpp:61-84 | A pid is reported as often as it is listed when it is kept, and never when it is 0, its lookup fails or its path is not a developer tool |
| `Collector.ReportedIff` | collector/main.cpp:61-84 | A pid is reported iff it is listed and kept |
| `Collector.ListedOnceReportedOnce` | collector/main.cpp:61-84 | A kept pid listed once is reported exactly once |
| `Collector.FilterKept` | collector/main.cpp:63-72 | The first pass of the two-pass reference keeps only listed pids that pass all three tests |
| `Collector.BuildRecords` | collector/main.cpp:75-84 | The second pass builds one record per kept pid, each describing its pid |
| `Collector.FusedEqualsTwoPass` | collector/main.cpp:61-87 | Classifying while enumerating gives the same list as filtering the full listing first and building the records afterwards |
| `Collector.GetProcesses` | collector/main.cpp:42-89 | A failed size query (at most 0) gives the empty list; otherwise the result is Collected over the examined entries, so every property above holds of it |

## Left out

- `main` (collector/main.cpp:91-116): the endless sampling loop, its 5-second sleep, the cycle counter, `curl_global_init` and the console lines naming the first two processes. These are scheduling and I/O with no contract beyond calling `GetProcesses`.
- The diagnostics written to the console inside `get_processes` (lines 50 and 74). The failed size query is still modelled, as its empty result.
- The internals of `proc_listpids` and `proc_pidpath`. They are parameters. The model does not capture that the process table can change between the two listing calls or during the loop. The byte-to-count arithmetic (`bytes / sizeof(pid_t)`) is not modelled either: the model starts from the entry count `actual_count`. A negative byte count gives a negative entry count in the C++, so no entries are examined, which is what the model does for any count of at most 0.
- Paths are modelled as character strings. The C++ views the bytes `proc_pidpath` wrote, up to the first NUL and at most `PROC_PIDPATHINFO_MAXSIZE` long. Every indicator and '/' is ASCII, so the substring and last-'/' searches give the same answers on bytes as on characters; the model only admits more paths (with NUL, of any length).
- GetProcesses: requires that the reported entry count does not exceed the buffer. The C++ relies on the operating system for this and does not check it.
- Process identifiers: the 32-bit range of `pid_t` is modelled, but nothing in the core does arithmetic on pids.
- The reservation of 64 slots in the result vector: it affects capacity only.
- The JSON encoder and the HTTP shipper: the code has neither.
- backend/main.py (the web endpoint that stores reports in SQLite) and backend/check_db.py (a script that prints stored rows): web-framework and database I/O outside the collector.
