# LogCat console: record formatting, the two-queue consumer, and path trimming

LogCat is a log collector. Its console script (`LogCatConsole.py`) pulls log
records from two FIFO queues and prints each one as a coloured terminal line:
- the local `internal_logger` queue, fed by the `LogCatServer`'s own logger through its `console` handler;
- the output queue of the `LogCatServer`, fed by connected clients.

This project models three pieces of that code in Dafny and proves their
properties.

- **`out`** (module `LogFormat`, `log_format.dfy`). `out` looks up the colour
  pair for the record's severity in the six-entry `highlight` table and
  rewrites three fields of the record in place:
  - the logger name becomes its last 20 characters (`NAME_LENGTH`), padded
    with spaces to exactly 20;
  - the level name becomes its last 8 characters, padded to exactly 8;
  - every newline in the message becomes `" | "`.

  It then prints `asctime | levelname | name | msg` behind the colour prefix.
  The prefix is terminal output, so the model keeps only the colour pair it
  selects (`Line.fg`, `Line.bg`). The in-place rewrite is modelled as a
  function that returns the rewritten record together with the line. An
  unknown severity raises `KeyError` in the code; the model returns
  `Failure(KeyError(levelno))`, and `Raises(r)` names that case.
  The consumer loops record each printed line as `Printed(rec)`, the record
  it was printed for; its colours and text are `Out(rec).value.line`.
- **The consumer loops** (module `ConsoleLoop`, `console_loop.dfy`). The class
  `Console` holds:
  - both queues as `seq<Record>`;
  - the server's `connected` and `closed` flags;
  - the spinner's `enabled` flag;
  - the terminal output;
  - a `crashed` flag for the `KeyError` that ends the script.

  Ghost logs of everything put on each queue, and of everything taken with
  its source, carry the FIFO-per-queue invariant `Valid()`. Each loop has a
  method:
  - `PreConnectionIteration` is one turn of the loop before the server
    connects. Its inner drain loop is `DrainLocal`.
  - `ConnectedStep` is one step of the connected-phase loop, taken once a
    queue holds a record.
  - `ConnectedRun` is that loop run while nothing new arrives.

  The producers and the server's state changes are methods the environment
  calls: `PushLocal`, `PushServer`, `SetConnected` and `SetClosed`.
- **`trim_word`** (module `PathTrim`, `trim_word.dfy`). If the path ends
  with the word, it cuts the word off and strips the `\` and `/` characters
  that are then left at the end; otherwise it returns the path unchanged.
  `rstrip` is a recursive function, and its three defining facts are proved
  to determine it uniquely.

Four facts about the code that the model keeps as they are:
- Long fields are cut, not wrapped. The logger name keeps its last 20
  characters and the message's newlines become `" | "`; nothing is
  reflowed.
- An unmapped severity has no default colour. `out` indexes `highlight`
  directly, so such a record raises `KeyError`.
- Nothing is drained after the server closes. The pre-connection loop
  breaks at once, and the connected loop stops at its next test.
- The inner wait loop (`LogCatConsole.py:137-140`) never checks
  `is_closed`.

## Model

| member | source | states |
|---|---|---|
| LogFormat.TailSlice | LogCatConsole.py:29-30 | The suffix slice `[-n:]` is never longer than the string, and for a positive `n` its length is the smaller of the two |
| LogFormat.PadRight | LogCatConsole.py:29-30 | Left alignment to a width gives a string as long as the longer of the text and the width |
| LogFormat.FormatField | LogCatConsole.py:29-30 | For a positive width, a formatted field is exactly `width` characters long |
| LogFormat.FormatName | LogCatConsole.py:29 | The rewritten logger name is exactly `NAME_LENGTH` (20) characters long |
| LogFormat.FormatLevelName | LogCatConsole.py:30 | The rewritten level name is exactly 8 characters long |
| LogFormat.FormatFieldShape | LogCatConsole.py:29-30 | For a positive width, a formatted field is exactly `width` characters long: the last `width` characters of a longer value, or a shorter value followed by spaces |
| LogFormat.FormatNameShape | LogCatConsole.py:29 | The rewritten logger name is exactly `NAME_LENGTH` (20) characters: the last 20 characters of a long name, or the name followed by spaces |
| LogFormat.FormatLevelNameShape | LogCatConsole.py:30 | The rewritten level name is exactly 8 characters: the last 8 characters of a long level name, or the level name followed by spaces |
| LogFormat.TailSliceShape | LogCatConsole.py:29-30 | The suffix slices `[-n:]` keep the last `n` characters, or the whole string when it is shorter; `[-0:]` keeps the whole string |
| LogFormat.PadRightShape | LogCatConsole.py:29-30 | Left alignment keeps the text and fills with spaces up to the width; it never truncates |
| LogFormat.FormatFieldIdempotent | LogCatConsole.py:29-30 | Formatting an already formatted field to the same width changes nothing |
| LogFormat.ReplaceNewlines | LogCatConsole.py:31 | Replacing each newline with the three-character separator never shortens the message |
| LogFormat.CountChar | LogCatConsole.py:31 | The newline count is at most the message length, and it is zero exactly when the message has no newline |
| LogFormat.ReplaceNewlinesShape | LogCatConsole.py:31 | The rewritten message holds no newline; it equals the original when that had none; each newline replaced adds exactly 2 characters |
| LogFormat.Split | LogCatConsole.py:31 | Splitting on a character gives one more part than there are occurrences, and no part contains the separator |
| LogFormat.ReplaceNewlinesIsSplitJoin | LogCatConsole.py:31 | The character-wise rewrite agrees with `new.join(msg.split(old))`, where `old` is the newline and `new` the three-character separator |
| LogFormat.ReplaceNewlinesIdempotent | LogCatConsole.py:31 | Replacing newlines a second time changes nothing |
| LogFormat.FormatRecord | LogCatConsole.py:29-31 | The in-place rewrite keeps `asctime` and `levelno`, makes the name 20 and the level name 8 characters long, and never shortens the message |
| LogFormat.FormatRecordShape | LogCatConsole.py:29-31 | The in-place rewrite keeps `asctime` and `levelno`, brings the name to 20 characters and the level name to 8, and leaves no newline in the message (an unchanged message if it had none) |
| LogFormat.FormatRecordIdempotent | LogCatConsole.py:29-31 | Rewriting an already rewritten record leaves it as it is |
| LogFormat.ComposeLine | LogCatConsole.py:32 | The printed text is as long as the four columns together plus three column separators |
| LogFormat.Out | LogCatConsole.py:25-32 | `out` succeeds exactly when the severity is in `highlight`, and otherwise fails with `KeyError(levelno)`. On success it returns the rewritten record and a line whose text is composed from that record |
| LogFormat.OutSpec | LogCatConsole.py:25-32 | `out` fails exactly when `levelno` is not one of 0, 10, 20, 30, 40, 50, and the failure is `KeyError(levelno)` with no fallback. Otherwise the record is rewritten, the colours are `highlight[levelno]`, and the text is the rewritten record's `asctime`, `levelname`, `name` and `msg` joined by the column separator |
| LogFormat.BackgroundBySeverity | LogCatConsole.py:54-59 | Only severity 50 gets the red background; every other mapped severity is drawn on black |
| LogFormat.LineColumns | LogCatConsole.py:32 | In a printed line, the level name sits 3 characters after the timestamp, the logger name at 14 and the message at 37, with the column separator between the columns; the line's length is the timestamp's plus 37 plus the message's |
| LogFormat.ComposeLineColumns | LogCatConsole.py:32 | The same column offsets for any record whose name fields are 20 and 8 characters wide |
| LogFormat.SingleLine | LogCatConsole.py:31-32 | A printed line has no newline exactly when the timestamp and the kept ends of the level name and logger name have none; the message never contributes one |
| LogFormat.OutIdempotent | LogCatConsole.py:25-32 | Calling `out` again on the rewritten dict prints the same line and leaves the same dict |
| ConsoleLoop.Outputs | LogCatConsole.py:125-129 | Printing a run of records writes at most one line per record and never a bare blank line |
| ConsoleLoop.OutputsAllPrinted | LogCatConsole.py:125-129 | When `out` raises on none of the records, each record prints exactly one line, in order |
| ConsoleLoop.OutputsAppend | LogCatConsole.py:125-129 | The output for two runs of records, one after the other, is the output for the first followed by the output for the second |
| ConsoleLoop.FromSourceAppend | LogCatConsole.py:142-145 | The records taken from one queue during two stretches are those of the first stretch followed by those of the second |
| ConsoleLoop.FromSourceTag | LogCatConsole.py:142-145 | Records taken only from one queue are, for that queue, exactly the records in the order taken, and nothing for the other queue |
| ConsoleLoop.FirstFailure | LogCatConsole.py:125-129 | The position of the first record `out` raises on: every record before it prints, and the record at it fails |
| ConsoleLoop.Drained | LogCatConsole.py:125-129 | The drain takes the whole queue exactly when no record fails, or only the last one does |
| ConsoleLoop.SpinnerBreak | LogCatConsole.py:146-147 | A blank line is printed exactly when the spinner was showing |
| ConsoleLoop.MergeOrder | LogCatConsole.py:142-145 | The merge order in which the connected loop takes records when nothing arrives; its own contract gives its length as the two queue lengths added, and MergeOrderIsConcat shows it takes every record of both queues exactly once |
| ConsoleLoop.MergeOrderStep | LogCatConsole.py:142-145 | The next record taken is the local queue's head when the local queue is non-empty, and the server queue's head otherwise |
| ConsoleLoop.MergeOrderIsConcat | LogCatConsole.py:142-145 | With nothing arriving, every local record is taken in order before every server record, and the server records follow in order |
| ConsoleLoop.MergeExample | LogCatConsole.py:142-145 | Local `[a, b]` and server `[c]` are taken as a, b, c |
| ConsoleLoop.Console.constructor | LogCatConsole.py:114-119 | The model starts with empty queues, no connection, the spinner hidden and nothing printed; PushLocal, PushServer and SetConnected then build whatever state the loops meet at line 120, where records may already be queued and the server may already be connected |
| ConsoleLoop.Console.PushLocal | LogCatConsole.py:91-97 | A record appended to the local queue, with FIFO order kept |
| ConsoleLoop.Console.PushServer | LogCatConsole.py:137-143 | The external `LogCatServer` appends a record to the queue the loop reads, with FIFO order kept |
| ConsoleLoop.Console.SetConnected | LogCatConsole.py:120 | The server's connection state changes and nothing else does |
| ConsoleLoop.Console.SetClosed | LogCatConsole.py:121-124 | The server closes and nothing else changes |
| ConsoleLoop.Console.Take | LogCatConsole.py:142-145 | `get()` removes and returns the head of the chosen queue, leaves the other queue alone, and records what was taken, keeping the FIFO invariant |
| ConsoleLoop.Console.Render | LogCatConsole.py:149 | `out(record)` appends the record's line, or raises exactly when its severity has no colour |
| ConsoleLoop.Console.DrainStep | LogCatConsole.py:126-129 | One turn of the inner drain loop: the spinner ends hidden, the local head is taken and printed, and the server queue and flags are unchanged |
| ConsoleLoop.Console.DrainOne | LogCatConsole.py:125-129 | One turn moves one record further along the queue, and raises exactly at the first record that fails |
| ConsoleLoop.Console.DrainLocal | LogCatConsole.py:125-129 | The drain takes and prints the local records in FIFO order, hiding the spinner. It stops with the queue empty, or right after the first record whose severity fails. The server queue and the flags are untouched |
| ConsoleLoop.Console.PreConnectionIteration | LogCatConsole.py:120-131 | A closed server ends the loop at once, with the spinner hidden and nothing taken or printed. Otherwise the local queue is drained in FIFO order, the server queue is untouched, and the spinner is shown again unless `out` raised |
| ConsoleLoop.Console.ConnectedStep | LogCatConsole.py:142-149 | The local head is taken (server queue unchanged) when the local queue is non-empty; otherwise the server head is taken (local queue unchanged). A blank line is printed if the spinner showed, the spinner ends hidden, and the record's line is printed or `out` raises |
| ConsoleLoop.Console.StepAlong | LogCatConsole.py:142-149 | One connected step takes and prints the next record of the merge order and hides the spinner; `out` raises exactly when that record's severity has no colour, which is then the first failing record of the order |
| ConsoleLoop.Console.RunAlong | LogCatConsole.py:136-149 | The connected loop gets further along the merge order until both queues are empty, having taken the whole order without a failure, or until `out` raises, right after taking the first failing record of the order |
| ConsoleLoop.Console.ConnectedRun | LogCatConsole.py:136-149 | With the server open and nothing arriving, the records are taken and printed along the merge order. `out` raises exactly when some queued record's severity has no colour, and then the run has taken the records up to and including the first such one. When the queues run empty, all initial local records have been printed in order before all server records in order, after a single blank line if the spinner showed. With both queues empty nothing is taken and the spinner is left as it was |
| ConsoleLoop.RunOutcome | LogCatConsole.py:136-149 | Where a run stops along the merge order decides whether it raised: it raised exactly when some record of the local queue followed by the server queue fails, and then right after the first such record |
| ConsoleLoop.RunComplete | LogCatConsole.py:136-149 | A finished run has taken the whole merge order: the local records, then the server records |
| ConsoleLoop.RecordsOfTags | LogCatConsole.py:142-145 | Dropping the queue labels from the merged order leaves the local records followed by the server records |
| PathTrim.EndsWith | LogCatCryptography.py:11 | `endswith` holds exactly when the word is a suffix of the path; an empty word is always a suffix |
| PathTrim.DropLast | LogCatCryptography.py:12 | `path[:-n]` is a prefix of length `len(path) - n`; for n = 0 it is empty |
| PathTrim.RStrip | LogCatCryptography.py:12 | `rstrip` returns a prefix, removes only separator characters, and leaves no separator at the end |
| PathTrim.RStripUnique | LogCatCryptography.py:12 | Any prefix with those three properties is the result of `rstrip` |
| PathTrim.RStripIdempotent | LogCatCryptography.py:12 | Stripping twice equals stripping once |
| PathTrim.TrimWord | LogCatCryptography.py:10-13 | The result is always a prefix of the path. The path is unchanged when it does not end with the word. Otherwise the word is cut off, only separators are stripped after that, and the result does not end with a separator |
| PathTrim.TrimWordSuffix | LogCatCryptography.py:11-12 | `trim_word(stem + word, word)` for a non-empty word is `stem` without its trailing separators |
| PathTrim.TrimEmptyWord | LogCatCryptography.py:12 | With an empty word, every path trims to `""`, because `path[:-0]` is `path[:0]` |

## Left out

- Terminal output and colour codes: `print`, the colour escapes, `settitle`, `textcolor`/`textbackground` and `set_color_loop`. A line keeps only its colour pair and its text.
- `str(record['msg'])`: the model takes the message as a string; converting other types is left out.
- The spinner object's animation, text, spinner style and interval: only its `enabled` flag is modelled.
- `time.sleep`, and the blocking `Queue.get` on an empty queue: timing and blocking. `ConnectedStep` requires a non-empty queue.
- The wait loop at `LogCatConsole.py:137-140`: it never checks `is_closed`, so it can wait forever. Only the step taken once a queue holds a record is modelled, so the spinner being re-enabled while the server is disconnected (`LogCatConsole.py:138-139`) is left out with it.
- Concurrency: records that arrive, and flags that change, while a drain or a run is in progress. The environment methods interleave only between loop iterations. `ConnectedRun` covers a run during which nothing arrives.
- The signal, atexit and console-control handlers and `kill`: they run asynchronously and call into the server.
- `LogCatServer`, the `PipeLineHandler` wiring and `join`: foreign network and thread components. The server is reduced to its queue and two flags.
- `SymmetricFernet`, its configuration loading, and key and salt generation and saving: cryptography and file I/O.
- Path construction with `os.path`: platform plumbing.
- The record dict is rewritten in place in the code. Here `out` returns the rewritten record. Nothing in the script reads the dict after `out`; the model assumes the producers (`PipeLineHandler`, `LogCatServer`) keep no reference to it.
