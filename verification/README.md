# jellyfin-spotify manual run, modelled in Dafny

This project models `main` of `docker_scripts/run_manual.py`. That function first checks that its environment is usable. It then works through a backlog file of spotify links, one link per line. Each link is fetched with tsar and imported into jellyfin. After every link that went through without raising, the link is removed from the backlog and the file is rewritten.

The model has five modules:

- `Lines` (`lines.dfy`): the file's text and lines. It covers `readlines()`, which keeps each line's terminator, and the rewrite that writes the lines back with nothing between them. It also covers `list.remove`, which deletes the first equal element, and the subsequence and parity facts the loop needs.
- `Startup` (`startup.dfy`): `get_envar`, and the start-up checks as one ordered list. `FirstFailure` runs that list and stops at the first failing check. `Validate` is the whole start-up. The answers of the file system, of the librespot launch and of the spotify cache validator are the fields of a `Host` value.
- `Pipeline` (`pipeline.dfy`): `run_tsar_and_import`. A link whose text contains `"playlist"` has its name looked up, then it is fetched, then imported. The collaborators are not modelled. Each call is recorded as a `Call` value holding the arguments it received. Whether it returns or raises is given by a `LinkOutcome`.
- `Backlog` (`backlog.dfy`): the backlog loop.
  - The Python list is a `LineList` object. `var unimportedLinks := links` makes two references to that one object, as line 123 does.
  - The links file is a `BacklogFile` object.
  - `ProcessBacklog` is the loop as written. It is proved equal to the recursive function `AliasedRun`, and the loop's properties are proved about `AliasedRun`.
  - `ProcessBacklogSnapshot` and `SnapshotRun` model the corrected loop (see Findings).
- `Manual` (`manual.dfy`): `ManualRun`, which validates and then runs the backlog loop.

The attempts of one run are numbered from 0. The k-th attempt behaves as `outcomes(k)`.

The evidently intended loop iterates an unchanging copy of the lines and removes each processed link from a separate list (see Findings). The source's loop iterates and shrinks one and the same list. The model follows the source: `ProcessBacklog` and `ManualRun` use the aliased loop.

## Model

| member | source | states |
|---|---|---|
| Startup.GetEnvar | docker_scripts/run_manual.py:18-22 | An absent variable fails with a missing-variable error. A variable set to "" fails with an empty-variable error. Otherwise the value is returned unchanged. |
| Startup.FirstFailure | docker_scripts/run_manual.py:36-83 | The checks run in order. The result passes exactly when every check passes. A failure is the verdict of a check that every earlier check passed. |
| Startup.FirstFailureAppend | docker_scripts/run_manual.py:36-83 | When the first group of checks fails, its failure is the result and the later checks play no part. Otherwise the later group decides. |
| Startup.Validate | docker_scripts/run_manual.py:36-83 | Start-up succeeds exactly when all 21 checks pass, in source order. Otherwise it reports the first failing check's error. On success, all ten variables are present and non-empty, and the settings are their values. |
| Startup.ConfigurationErrorsFirst | docker_scripts/run_manual.py:36-46 | When the k-th variable is the first one missing or empty, validation reports that variable's error, whatever the host answers. |
| Pipeline.Contains | docker_scripts/run_manual.py:87 | Python's `pattern in s`: true exactly when the pattern occurs at some index of `s`. |
| Pipeline.AttemptClassification | docker_scripts/run_manual.py:87-91 | The name is looked up exactly for links containing "playlist". The lookup is the first call, with the configured user and the link as playlist id. |
| Pipeline.AttemptCallsUntilFailure | docker_scripts/run_manual.py:85-113 | The fetch runs unless the lookup raised. The import runs exactly when the fetch returned. The attempt returns exactly when every call it made returned. |
| Pipeline.AttemptStageOrder | docker_scripts/run_manual.py:94-112 | Calls come in the order lookup, fetch, import, each at most once. So a link's fetch finishes before its import starts. |
| Pipeline.AttemptFixedArguments | docker_scripts/run_manual.py:94-112 | Every fetch is of the link into /import, with `empty_playlist=False` and 999 tracks at most. Every import empties /import. A playlist's import carries the looked-up name; any other link's import carries no name. |
| Pipeline.TraceFetches | docker_scripts/run_manual.py:94-100 | Every fetch in a run's calls is for a link that was attempted and carries the fixed flags. |
| Lines.LineEnd | docker_scripts/run_manual.py:121 | The first line of a text ends just past its first newline, or at the end of the text when there is none. |
| Lines.ConcatReadLines | docker_scripts/run_manual.py:120-121 | Writing back the lines `readlines()` returned reproduces the text exactly. |
| Lines.ReadLinesWellFormed | docker_scripts/run_manual.py:121 | Every line `readlines()` returns is non-empty and has no newline before its end. Every line but the last ends in a newline. |
| Lines.ReadLinesConcat | docker_scripts/run_manual.py:133-134 | Reading back a file written from well-formed lines gives the same lines. |
| Lines.ConcatSnoc | docker_scripts/run_manual.py:133-134 | Writing one more line appends it to the text written so far. |
| Lines.FirstIndex | docker_scripts/run_manual.py:129 | The index found holds the element, and no earlier index does. |
| Lines.RemoveFirst | docker_scripts/run_manual.py:129 | `list.remove` shortens the list by one and removes exactly one copy of the element. |
| Lines.RemoveFirstSub | docker_scripts/run_manual.py:129 | `list.remove` keeps the surviving elements in their original order. |
| Lines.SubWellFormed | docker_scripts/run_manual.py:129-134 | Deleting lines from a well-formed list leaves a well-formed list. So the rewritten file reads back as the list. |
| Backlog.LineList.Remove | docker_scripts/run_manual.py:129 | The list object becomes the old list with the first copy of the link deleted. |
| Backlog.BacklogFile.Rewrite | docker_scripts/run_manual.py:131-134 | After truncating and writing every line, the file holds exactly the concatenation of the lines, in order. |
| Backlog.AliasedTurn | docker_scripts/run_manual.py:123-129 | In the aliased loop, the link at the iterator's position p is the file's link at 2p. Removing it and advancing keeps the loop's state. |
| Backlog.AliasedAbort | docker_scripts/run_manual.py:125-126 | When an attempt raises after k successes, the list still holds the failing link at k, followed by every link of the file after it. |
| Backlog.AliasedDone | docker_scripts/run_manual.py:125-129 | When the iterator runs off the list, the links at even positions were processed. The links at odd positions are what remains, as a multiset. |
| Backlog.AliasedFromEnds | docker_scripts/run_manual.py:123-134 | From any reachable state of the aliased loop, the run ends as AliasedRunProperties states. |
| Backlog.AliasedRunProperties | docker_scripts/run_manual.py:120-134 | The list left behind is the file's lines with some deleted and the survivors in order. Together with the processed links it is exactly the file's lines, and it reads back as itself. Nothing is removed before some attempt returns, and every processed link's attempt returned. On completion, the even-position links were processed and the odd-position links remain. On an abort after k successes, the failing link is line 2k, and it and every later line remain. The calls are exactly those of the attempts made. |
| Backlog.ProcessBacklog | docker_scripts/run_manual.py:120-134 | The loop as written yields exactly `AliasedRun` over the lines read from the file. At the end the file holds the concatenation of the shared list; the loop invariant keeps this after every successful link's rewrite. |
| Backlog.SnapshotFromEnds | docker_scripts/run_manual.py:123-134 | From any state of the corrected loop, the run ends as SnapshotRunProperties states. |
| Backlog.SnapshotStops | docker_scripts/run_manual.py:125-134 | A corrected run that stops after i links leaves the lines from i on and has processed those before i. |
| Backlog.SnapshotRunProperties | docker_scripts/run_manual.py:120-134 | In the corrected loop, every link is attempted once, in file order. A complete run processes every line and empties the file. An abort after k successes leaves exactly lines k onwards, the failing link first. |
| Backlog.ProcessBacklogSnapshot | docker_scripts/run_manual.py:120-134 | The corrected loop yields exactly `SnapshotRun` over the lines read from the file. The file holds the concatenation of the separate remaining list. |
| Backlog.AliasedRunTwoLines | docker_scripts/run_manual.py:123-129 | For any two links that are not playlists, with every call returning, the loop as written attempts only the first. The run completes with the second link left in the list. |
| Backlog.SnapshotRunTwoLines | docker_scripts/run_manual.py:123-134 | For the same two links and outcomes, the corrected loop attempts both in order and completes with nothing left. |
| Backlog.AliasedRunLeavesSecondLine | docker_scripts/run_manual.py:123-129 | On the backlog "a\n", "b\n" with every call returning, the loop as written fetches and imports only "a\n". The run completes and leaves "b\n" in the file. |
| Backlog.SnapshotRunEmptiesFile | docker_scripts/run_manual.py:123-134 | On the same backlog and outcomes, the corrected loop fetches and imports both links in order and leaves the file empty. |
| Manual.ManualRun | docker_scripts/run_manual.py:36-134 | A failed start-up ends the run with the first check's error, before any name lookup, fetch or import and without touching the links file. The cache validation at line 83 is itself a start-up check, so it may have been called. Otherwise the run is the aliased backlog loop with the validated settings. Its exit, calls and final file are those of `AliasedRun`. The final file reads back as exactly the list the run left, which is the original lines with some deleted and the rest in their original order. |

## Left out

- Logging: the `print` calls, and the dump of the whole environment at line 117. They produce output only.
- Error messages: the text of each exception, including the rewritten message in `verify_writable` (lines 28-32), is not modelled. Errors are distinguished by kind and by the path, name or argument vector they carry.
- Collaborators: the bodies of `tsar`, `jellyfin_import` and `spotify_get_playlist_name` are not part of this model. Their calls are recorded with their arguments. Whether each returns or raises is an input.
- File-system and process probes: `os.path.isdir`, `os.path.isfile`, opening in "r+", `tempfile.TemporaryFile` and `subprocess.run` are answers of `Host`. So is `validate_spotify_cache` (line 83), whose body is not part of this model: it is the answer `spotifyCacheValid`, keyed by the spotify username, and its call is not recorded as a `Call`.
  - The launch at line 76 fails only when the binary cannot be started. Its exit status is ignored, as in the source.
  - The answers are taken to stay fixed during the run.
- Text encoding: the file's text is taken after Python's universal-newline decoding, so '\n' is the only terminator. Byte decoding and "\r\n" files are not modelled.
- The links file is modelled as one object, the file named by the links-path variable. The model does not cover the source reopening that path on every rewrite, another process changing the file meanwhile, or a write failing part-way.
- Calls that never return: the librespot launch at line 76 and the collaborator calls at lines 88, 94 and 104 block with no time-out. The model takes every call to either return or raise. A call that hangs forever is not modelled; the file would stay as it was after the last rewrite.
- Interruption: a crash during a rewrite, which could leave a truncated file, is not modelled. Only exceptions raised by the collaborators end a run early.
- `tool_scripts/jellyfin_scan_library_test.py` is not part of this model. It is a command-line wrapper with no logic of its own.

## Findings

| source | as written | input that shows it | evidently intended | confidence | as-written member | corrected member |
|---|---|---|---|---|---|---|
| docker_scripts/run_manual.py:123-129 | `unimported_links = links` binds the name to the list being iterated. `remove` inside the positional `for` loop shifts the next link into the slot just visited, so that link is stepped over. When every call returns, only the even-position lines are processed and the odd-position lines stay in the file. | backlog file "a\nb\n", every fetch and import returning | iterate an unchanging snapshot and remove from a separate copy: every line is processed once, in order, and the file ends empty | high; not executed | Backlog.AliasedRunLeavesSecondLine | Backlog.SnapshotRunEmptiesFile |
