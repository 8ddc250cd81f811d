# jsscrub: a verified model of the JSON value scrubber

jsscrub reads a JSON document and writes a copy in which every string and
integer value has been replaced by random content. The copy keeps the
document's structure, its property names, its booleans and its nulls. The
program (Program.cs) reads the input with a `Utf8JsonReader` and goes through
its tokens one at a time. For each token, a `switch` decides what to write to
a `Utf8JsonWriter` over an in-memory buffer:

- object and array delimiters are written again;
- a property name is written again, or `"NN"` if it reads as null;
- `true`, `false` and `null` are written again;
- a string value becomes a string of random letters from the 52-letter
  alphabet `a-z A-Z`, as long as the value's raw bytes in the input;
- a number that fits an `int` `v` becomes `Random.Shared.Next(v)`;
- a number that only fits a `double` becomes a randomly scaled double;
- a number that fits neither writes nothing, and neither does any other
  token kind.

The output file is opened (and created if missing) before the input is
read. The buffer is copied into it only after the whole input has been read.
An exception ends the run before that copy, so nothing is written. An empty
input is not scrubbed at all.

The model has these modules:

- `JsonModel` (json_model.dfy) holds the tokens the reader hands out, with
  what its accessors report about each one (`GetString`, `TryGetInt32`,
  `TryGetDouble`, the span or sequence length of a string). It also holds
  the values written to the writer.
- `SharedRandom` (shared_random.dfy) turns `Random.Shared` into an explicit
  oracle `Rng`. The value `draw(k, bound)` answers the k-th call. `Valid()`
  requires each answer to be below its bound.
- `Scrubber` (scrubber.dfy) holds the alphabet, the replacement string, the
  `switch` for one token (`Handle`), the scrub of a token sequence
  (`ScrubTokens`) and what a run leaves behind (`Run`). It also holds the
  reference definitions the scrub is checked against:
  - `Fault`: the exception a token raises;
  - `Writes`: whether a token writes anything;
  - `Corresponds`: which written values are allowed for a token.
- `ScrubProperties` (scrub_properties.dfy) proves the guarantees about whole
  token streams.
- `ScrubLoop` (scrub_loop.dfy) is the read loop as imperative code. It has a
  reader class that is advanced by `Read()` and a writer class that appends
  to its buffer. `ScrubToBuffer` is the loop, proved to compute
  `Scrubber.Run`. `ScrubFile` is the whole run as written: open the output,
  scrub, and write the buffer only on success.
- `OutputFiles` (output_file.dfy) models the output file: whether it exists,
  what it holds, and the finding below.

Exceptions are named by the .NET type the source raises:

| exception | raised by | handled how |
|---|---|---|
| `JsonException` | `Read()` on malformed input | not caught |
| `InvalidOperation` | `GetString()` on a name it cannot transcode | caught at Program.cs:96, reported, the run returns |
| `Overflow` | the `checked` cast of a multi-segment length above `int.MaxValue` | not caught |
| `ArgumentOutOfRange` | `Random.Next` with a negative bound | not caught |

In every one of these cases nothing is written to the output file. The file
has already been opened at Program.cs:25, though, so a missing output file
now exists and is empty; an existing one is left as it was. The same holds
for an empty input.

`Overflow` cannot happen in this program. The reader is built over one
contiguous buffer (Program.cs:43), so it never reports a multi-segment
value. The model keeps the `Segments` case and its `checked` cast because the
code handles them.

## Model

| member | source | states |
|---|---|---|
| `SharedRandom.Rng.Next` | Program.cs:66 | `Next(maxValue)` answers 0 when `maxValue` is 0, and otherwise a value in `[0, maxValue)` |
| `Scrubber.AlphabetIsLetters` | Program.cs:23 | the replacement alphabet has 52 characters, and a character is in it exactly when it is an ASCII letter `a-z` or `A-Z` |
| `Scrubber.Replacement` | Program.cs:59-60 | the replacement for a value of n raw bytes has exactly n characters, each one an ASCII letter |
| `Scrubber.Handle` | Program.cs:50-94 | one token throws exactly when `Fault` says it does, and then with that exception. Otherwise it writes a value exactly when `Writes` holds, that value `Corresponds` to the token, and the generator only moves forward |
| `ScrubProperties.Writing` | Program.cs:63-72 | the tokens that write something are exactly the input tokens other than `default` kinds and numbers that fit neither `int` nor `double` |
| `ScrubProperties.ScrubTokensShape` | Program.cs:46-106 | the scrub of a token sequence succeeds exactly when no token faults. Its output then has one value per writing token, in input order, and each value corresponds to its token. Otherwise it fails with the exception of the first faulty token |
| `ScrubProperties.ScrubStructureIgnoresRandomness` | Program.cs:46-106 | for any two generators, the scrub of the same tokens succeeds or fails alike, with the same exception. Its outputs have equal length and agree value by value once string and integer contents are blanked out |
| `ScrubProperties.RunOutcome` | Program.cs:30-108 | a run writes output exactly when the input is non-empty, no token faults and the reader ends without a `JsonException`. The output then conforms to the input. An empty input is not scrubbed. An aborted run names the exception that ended it (the first faulty token's, or the reader's) |
| `ScrubProperties.EveryLetterStringIsPossible` | Program.cs:59-60 | every string of letters of length n is the replacement that some valid generator produces, so every letter of the alphabet can appear |
| `ScrubProperties.EveryCorrespondingValueIsPossible` | Program.cs:50-94 | `Corresponds` is tight: every value it allows for a token that does not fault is written under some valid generator |
| `ScrubProperties.ScrubKeepsPropertyNames` | Program.cs:52-54 | a scrubbed document has the same ordered list of property names as the input, with `"NN"` for a name that reads as null |
| `ScrubLoop.JsonReader.constructor` | Program.cs:43 | a new reader is at the start of the token stream |
| `ScrubLoop.JsonReader.Read` | Program.cs:46 | `Read()` yields the next token and advances by one. At the end it reports the end without moving, or throws if the input is malformed |
| `ScrubLoop.BufferedWriter.constructor` | Program.cs:44-45 | the writer's buffer starts empty |
| `ScrubLoop.BufferedWriter.Write` | Program.cs:53-90 | each writer call appends exactly its value to the buffer |
| `ScrubLoop.HandleToken` | Program.cs:48-95 | the imperative `switch` computes `Scrubber.Handle` |
| `ScrubLoop.ScrubToBuffer` | Program.cs:30-107 | the read loop, from the empty-input test to the point where the buffer would be flushed, computes `Scrubber.Run` |
| `ScrubLoop.ScrubFile` | Program.cs:25-108 | a run computes `Scrubber.Run`. Afterwards the output file exists. On success it holds the scrubbed output written over what the file held when opened (`WrittenOver`); otherwise it holds what it held when opened (nothing, if it was missing) |
| `ScrubLoop.ScrubFileTruncating` | Program.cs:107-108 | with the file truncated just before the buffer is written, a successful run leaves exactly the scrubbed output, and any other run leaves the file as it was opened |
| `OutputFiles.WrittenOver` | Program.cs:25 | writing data from the start of an existing file opened without truncation puts the data first and keeps the old file's bytes beyond the data's length |
| `OutputFiles.StaleTailSurvives` | Program.cs:25 | an existing three-unit file that receives one unit ends up as the new unit followed by the two stale ones |
| `OutputFiles.OutputFile.OpenOrCreate` | Program.cs:25 | opening with `FileMode.OpenOrCreate` leaves an existing file's contents and creates a missing file empty |
| `OutputFiles.OutputFile.WriteFromStart` | Program.cs:108 | writing the buffer into the file as Program.cs opened it yields `WrittenOver`, which differs from the new data whenever the old file was longer |
| `OutputFiles.OutputFile.TruncateAndWrite` | Program.cs:108 | setting the file's length to 0 and then writing leaves exactly the new data |

## Findings

| source | as written | input that shows it | evidently intended | confidence | as-written member | corrected member |
|---|---|---|---|---|---|---|
| Program.cs:25 | The output file is opened with `FileMode.OpenOrCreate`, which keeps an existing file's contents. At line 108 the buffered output is written from offset 0 and the file is never truncated. | An existing output file longer than the scrubbed text: its trailing bytes remain after the new JSON, which is then no longer valid JSON. | After a successful run the output file holds exactly the scrubbed text: truncate it just before writing (for example `output.SetLength(0)` before line 108). Using `FileMode.Create` at line 25 instead would also empty the file on an empty input or an aborted run. | not executed; high | `OutputFiles.StaleTailSurvives` | `ScrubLoop.ScrubFileTruncating` |

`ScrubLoop.ScrubFile` models the program as written. `ScrubLoop.ScrubFileTruncating`
is the corrected run. Both share the loop `ScrubLoop.ScrubToBuffer`.

Behaviour of the code that the model keeps as written:

- A number that fits neither `int` nor `double` writes nothing. It is not
  treated as a float.
- Only `InvalidOperationException` is caught. The other exceptions end the
  process, and they too leave no output.
- A string's replacement length is the value's raw byte length in the input,
  escapes included (`ValueSpan.Length` or `ValueSequence.Length`). It is not
  the decoded character count.
- `Next(0)` yields 0, and a negative integer value raises
  `ArgumentOutOfRangeException`, so the scrub of a document with a negative
  `int` value aborts.

## Left out

- Command-line argument checks, the test that the input file exists, opening
  and reading the input, and console messages (Program.cs:3-28, 32, 99-103,
  109) are I/O plumbing. The number of bytes read is a parameter of the run.
- The tokenizer is library code. Trailing-comma and comment tolerance, UTF-8
  validation and depth limits are not modelled: what the reader yields is an
  input `TokenStream`. The offset and depth printed with an error are not
  modelled either.
- The serializer's indentation and escaping are not modelled. The output is
  the sequence of writer calls, and the output file's contents are modelled
  at that granularity rather than as bytes.
- The writer's own validation is not modelled. For example, when a number
  that fits neither `int` nor `double` is a property's value, the next writer
  call throws `InvalidOperationException` (a property with no value). The
  model drops the number and goes on. Writer limits on very long strings are
  left out too.
- The floating-point path `NextDouble() * doubleValue` (Program.cs:70) is
  recorded as one generator call that writes some double, without its value.
- `Random.Shared`'s algorithm is replaced by the oracle `Rng`. Every `Next`
  or `NextDouble` call counts as one call, including `Next(0)`.
- `GetString()` never yields null for a property name, but the `"NN"`
  fallback is modelled as the code has it.
