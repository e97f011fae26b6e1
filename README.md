# Serial-to-CSV gesture sample collector

This project models `collect_serial_data_to_csv.py`, a script that reads accelerometer and gyroscope samples from a serial device and stores them in a CSV table. The script first writes the header row `aX,aY,aZ,gX,gY,gZ`. It then reads the device one line at a time, until the user stops it. For each line it:

- decodes and strips the line;
- skips a blank line without a word;
- skips a line that starts with the header text, with a notice;
- reports a line that does not split into exactly six comma-separated fields;
- writes any other line to the table as one row.

Every `numSamples` (119) written rows complete one gesture. The per-gesture counter goes back to zero and the gesture count goes up by one.

It is modelled in two modules:

- `Text` (`text.dfy`) covers the three Python string operations the loop uses, stated over Unicode scalar values:
  - `Strip` is `str.strip()`, with the whitespace set of `str.isspace()`;
  - `StartsWith` is `str.startswith`;
  - `Split` is `str.split(',')` for a one-character separator;
  - `Join` is the inverse of `Split`.
- `Collector` (`collector.dfy`) models the loop itself, in two layers:
  - **Pure specification.** `Classify` is the decision the loop body takes on one line: `Blank`, `Header`, `Sample(fields)` or `Malformed(line)`. `Apply` is what that decision does to a `Session`. A `Session` holds the rows written so far, the sample counter, the gesture count, and the console notices that depend on the input. `Replay` and `Feed` extend both to a finite stream of lines. `Accepted` is the stripped text of the lines that become rows. `Inv` is the invariant kept between iterations.
  - **Imperative model.** `SampleCollector` is a class that holds the run's state in fields:
    - its constructor writes the header row and zeroes the counters;
    - `Step` is one iteration of the `while True` loop;
    - `Run` is the loop over the lines read until the stop.

    `CollectSession` is the whole script with 119 samples per gesture. It returns the table and both counters.

The counters are stated without division. `gestures * numSamples + samplesCollected` equals the number of rows written, and `samplesCollected < numSamples`. Together these say that the gesture count is the quotient and the counter the remainder.

A read that times out returns an empty line. The loop treats such a line as blank and skips it, so a timeout is modelled as a `Blank` line.

## Model

| member | source | states |
|---|---|---|
| Text.TrimStart | collect_serial_data_to_csv.py:26 | the result is a suffix of the line; everything cut off is whitespace; what is left does not start with whitespace |
| Text.TrimEnd | collect_serial_data_to_csv.py:26 | the result is a prefix of the line; everything cut off is whitespace; what is left does not end with whitespace |
| Text.Strip | collect_serial_data_to_csv.py:26 | the stripped line is empty exactly when the line is all whitespace; otherwise it neither starts nor ends with whitespace |
| Text.StripSlice | collect_serial_data_to_csv.py:26 | the stripped line is a slice of the line, with only whitespace before and after it |
| Text.StripPadded | collect_serial_data_to_csv.py:26 | stripping removes any whitespace padding around a text that has no outer whitespace of its own, and nothing more |
| Text.StripIdempotent | collect_serial_data_to_csv.py:26 | stripping an already stripped line changes nothing |
| Text.TrimStartSpaces | collect_serial_data_to_csv.py:26 | leading whitespace is removed whatever follows it |
| Text.TrimEndSpaces | collect_serial_data_to_csv.py:26 | trailing whitespace after a text that ends in a non-space is removed, and nothing else is |
| Text.TrimEndKeepsPrefix | collect_serial_data_to_csv.py:26 | trimming the end never cuts into a prefix that ends in a non-space |
| Text.Split | collect_serial_data_to_csv.py:30 | a line splits into one more field than it has commas, and no field contains a comma |
| Text.CountAppend | collect_serial_data_to_csv.py:30 | the separator counts of two concatenated texts add up |
| Text.JoinSplit | collect_serial_data_to_csv.py:30 | joining the fields of a split line with the separator restores the line exactly |
| Text.SplitJoin | collect_serial_data_to_csv.py:30 | splitting the join of one or more separator-free fields gives the fields back |
| Text.SplitAt | collect_serial_data_to_csv.py:30 | a separator-free text is a single field, and a split cuts at the first separator |
| Text.SplitInjective | collect_serial_data_to_csv.py:30 | two lines with the same fields are the same line |
| Text.StartsWith | collect_serial_data_to_csv.py:29 | `str.startswith`, as a predicate without a contract of its own; `Collector.HeaderLineSkipped` and `Collector.FewFieldsNotHeader` state what the prefix test accepts and rejects |
| Collector.Initial | collect_serial_data_to_csv.py:17-21 | the state after the header row is written and both counters are zeroed satisfies the loop invariant for any positive `numSamples` |
| Collector.JoinHeader | collect_serial_data_to_csv.py:29 | the header row written first, joined with commas, is the header text the loop tests for |
| Collector.HeaderHasSixFields | collect_serial_data_to_csv.py:29-31 | the header text itself splits into the six header fields, so only the prefix test keeps it out of the table |
| Collector.SampleIsNotHeader | collect_serial_data_to_csv.py:29-32 | a line that does not start with the header text never splits into the header row |
| Collector.Classify | collect_serial_data_to_csv.py:26-43 | a sample line always has six comma-free fields and is not the header row |
| Collector.ClassifyMeaning | collect_serial_data_to_csv.py:26-44 | a line is blank exactly when it is all whitespace; it is a header exactly when it starts with the header text once stripped; a malformed line carries its non-empty stripped text, which does not split into six fields; a sample's fields are those of the stripped line and join back to it; a non-empty stripped line that does not start with the header text is a sample of its split when it has six fields and malformed otherwise |
| Collector.ClassifySample | collect_serial_data_to_csv.py:30-32 | the fields written for a sample are the split of its stripped line and join back to it |
| Collector.HeaderLineSkipped | collect_serial_data_to_csv.py:43-44 | leading whitespace, then the header text, then anything at all, is skipped as a header |
| Collector.FewFieldsNotHeader | collect_serial_data_to_csv.py:29-31 | a line with fewer than six fields can never start with the header text |
| Collector.FiveFieldLine | collect_serial_data_to_csv.py:29-42 | a line with five fields, from the start of a run, writes no row, leaves both counters at zero, and gives a single notice that quotes the stripped line |
| Collector.Apply | collect_serial_data_to_csv.py:30-44 | the loop body's effect on the run's state, as a function without a contract of its own; `Collector.ApplySample`, `Collector.ApplyOther` and `Collector.ApplyKeepsInv` state its properties |
| Collector.ApplySample | collect_serial_data_to_csv.py:30-40 | a sample appends exactly its fields as a row and counts one more sample; the counter stays below `numSamples`; the gesture count rises by one exactly when the counter is reset to 0, which is the only case with a gesture notice |
| Collector.ApplyOther | collect_serial_data_to_csv.py:41-44 | any other line writes no row and leaves both counters alone; a blank line changes nothing; a header adds a header notice; a malformed line adds a notice quoting it |
| Collector.ApplyKeepsInv | collect_serial_data_to_csv.py:29-44 | every iteration keeps the invariant: the header row is first and no later row equals it, every data row has six fields, the counter is below `numSamples`, and gestures and counter account for every data row |
| Collector.Replay | collect_serial_data_to_csv.py:25-44 | the loop over classified lines in arrival order, without a contract of its own; `Collector.ReplayAppend`, `Collector.ReplayKeepsInv`, `Collector.ReplayRows` and the other `Replay` lemmas state its properties |
| Collector.Classes | collect_serial_data_to_csv.py:25-26 | the classification of each line read, without a contract of its own; `Collector.ClassesAppend` and `Collector.SamplesAccepted` state its properties |
| Collector.Feed | collect_serial_data_to_csv.py:25-44 | the loop over the lines read, without a contract of its own; `Collector.FeedFromStart`, `Collector.HeaderOnce` and `Collector.SessionTable` state its properties |
| Collector.ReplayAppend | collect_serial_data_to_csv.py:25-44 | handling a stream in two parts is the same as handling it whole |
| Collector.SamplesAppend | collect_serial_data_to_csv.py:25-44 | the samples of a stream in two parts are those of the first part followed by those of the second |
| Collector.ReplayKeepsInv | collect_serial_data_to_csv.py:25-44 | any stream of lines keeps the invariant |
| Collector.ReplayRows | collect_serial_data_to_csv.py:25-32 | the rows a stream adds are exactly the fields of its samples, in arrival order |
| Collector.ReplayGesturesMonotone | collect_serial_data_to_csv.py:39 | the gesture count never decreases |
| Collector.ReplayWithinGesture | collect_serial_data_to_csv.py:31-35 | samples that do not reach `numSamples` only advance the counter: one row each, no gesture, no notice |
| Collector.ReplayOneGesture | collect_serial_data_to_csv.py:31-40 | `numSamples` samples from the start of a gesture add as many rows and one gesture, bring the counter back to 0, and give exactly one gesture notice |
| Collector.ClassesAppend | collect_serial_data_to_csv.py:25-26 | the lines of a stream in two parts are classified independently |
| Collector.SamplesAccepted | collect_serial_data_to_csv.py:26-32 | the rows of a stream correspond one-to-one, in order, to its sample lines; row `i` is the split of the `i`-th accepted stripped line, has six fields, is not the header row, and joins back to that line |
| Collector.FeedFromStart | collect_serial_data_to_csv.py:17-40 | from the start, the table is the header row followed by the sample rows; gestures and counter account for every accepted line; the counter is below `numSamples` |
| Collector.HeaderOnce | collect_serial_data_to_csv.py:17-44 | from the start, the header row is in the table exactly once, as its first row, however many header lines arrive |
| Collector.AllSamples | collect_serial_data_to_csv.py:26-32 | in a stream of sample lines only, every line is accepted and every classification is a well-formed sample |
| Collector.OneGesture | collect_serial_data_to_csv.py:31-40 | 119 sample lines from the start give the header and 119 rows, one gesture, the counter back at 0, and a single gesture notice |
| Collector.ClassesFramed | collect_serial_data_to_csv.py:43-44 | the header text before and after a stream is classified as a header in both places |
| Collector.ReplayNotices | collect_serial_data_to_csv.py:29-44 | the notices a run starts with change nothing else: the same stream reaches the same rows and both counters, and adds the same notices after the earlier ones |
| Collector.ReplayFramed | collect_serial_data_to_csv.py:43-44 | a header line before and after a stream changes none of its rows and neither counter, and adds one header notice before and one after the notices the stream gives on its own |
| Collector.ReplayGestureFramed | collect_serial_data_to_csv.py:31-44 | one gesture of samples between two header lines gives the table and counters of the gesture alone, with notices header, gesture, header |
| Collector.OneGestureBetweenHeaders | collect_serial_data_to_csv.py:29-44 | 119 sample lines between two repeated header lines give the same table as without them, one gesture, and the notices header, gesture, header |
| Collector.StoppedMidGesture | collect_serial_data_to_csv.py:31-35 | a run stopped after fifty sample lines holds the header and fifty rows, has no gesture complete, has the counter at fifty, and has given no notice |
| Collector.SampleCollector.constructor | collect_serial_data_to_csv.py:17-21 | the table holds just the header row, both counters are zero, there are no notices, and the invariant holds |
| Collector.SampleCollector.Step | collect_serial_data_to_csv.py:26-44 | one iteration changes the state exactly as `Apply` prescribes for the classified line, and keeps the invariant |
| Collector.SampleCollector.Run | collect_serial_data_to_csv.py:25-44 | the loop over the lines read leaves the state `Feed` prescribes for the stream, and keeps the invariant |
| Collector.SessionTable | collect_serial_data_to_csv.py:7-44 | for a whole run: the table is the header row followed by the sample rows; the header row is first and never repeated; row `1 + i` is the split of the `i`-th accepted line into six fields and joins back to it; gestures and counter account for every accepted line |
| Collector.CollectSession | collect_serial_data_to_csv.py:7-44 | the table the script writes is the header row followed by the sample rows, row `1 + i` being the split of the `i`-th accepted line into six fields; no data row equals the header row; gestures and counter account for every accepted line, the counter below 119 |

## Left out

- Opening the serial port (`com5`, 9600 baud, one-second timeout) and reading from it are left out. The lines read are a parameter. A read that times out yields an empty line, which the model handles as a `Blank` line.
- UTF-8 decoding is left out. Lines are taken as already decoded strings of Unicode scalar values. A decoding error, which would end the script, is not modelled.
- Opening `output.csv` and the CSV writer's quoting and escaping are left out. A row is modelled as its list of fields.
- The script stops only on a keyboard interrupt. The model's run is a finite sequence of lines, and stopping is reaching its end.
- The start message, the stop message and the final message do not depend on the input, so they are left out.
- The three prints on a completed gesture are one `GestureComplete(n)` notice carrying the new gesture count.
- Collector.SampleCollector.constructor: it takes `numSamples` as a parameter and requires it to be positive. The script fixes it at 119, which `CollectSession` and the scenario lemmas use.
- Text.IsSpace: the whitespace set is the one of Python's `str.isspace()`, written out as a list of characters. It is not derived from the Unicode database.
