# Option readers of fastqpreprocessing, modelled in Dafny

`fastqpreprocessing/src/input_options.cpp` turns the command line of three
tools into an options record and then checks that record:

* `read_options_tagsort` fills an INPUT_OPTIONS_TAGSORT record. Its checks
  stop at the first failure, which is reported, and the process exits 1.
* `read_options_fastqprocess` fills an INPUT_OPTIONS_FASTQPROCESS record.
* `read_options_fastq_slideseq` fills an INPUT_OPTIONS_FASTQ_READ_STRUCTURE
  record.
* The two FASTQ readers run every check, report each failure, and exit only
  after the last check has run.

Each reader is a `while` loop over what `getopt_long` returns, with a `switch`
that updates the caller's record in place, followed by the checks. The model
keeps that shape.

* `Getopt`:
  * The option stream is a sequence of `OptionEvent`s. Each event holds the
    option character, `optarg`, and `atoi`/`atof` of `optarg`.
  * `Fold` is the specification of one option loop. It stops at the help
    options (`?`, `h`) and at an unknown character (`abort()`).
  * Helper functions give the last occurrence of an option (`LastArg`,
    `LastInt`, `LastReal`, `Occurs`) and the arguments of repeated options in
    order (`ArgsOf`).
* `Tagsort`, `Fastqprocess`, `FastqSlideseq` each define:
  * a datatype for the record's value;
  * a field-by-field `Step` function for one `case`;
  * a `class` with the record's fields. Its `Apply` method is the `switch`
    and its `Check` method is the sequence of checks;
  * a driver method `ReadOptions…`. The driver loops over the events,
    updates the object in place and runs the checks. It returns how the C++
    function ends: it returns, exits after the help text, exits with an
    error, or aborts.
* `FastqRules`:
  * the error type shared by the two FASTQ readers, in the order of their
    checks;
  * the rules both readers apply;
  * the proof that the ordered report of a record is unique;
  * the verbose listing's choice of non-empty file lists.

Behaviour reproduced as written:

* **Output mode:**
  * With at least one output mode requested, the output-mode check of tagsort
    passes when ONE requested mode has its output file.
  * A second requested mode may lack its file.
  * The error message at fastqpreprocessing/src/input_options.cpp:151 reads
    "--compute-metric and --metric-output should be both specified together",
    but the condition at fastqpreprocessing/src/input_options.cpp:147-150
    fails only when NO requested mode has its file. The model follows the
    condition.
* **Gzip check:** it is the regex `.gz$` with `icase`, so `annotgz` is
  rejected too (`GzRegexSearchIsSuffixTest`).
* **Repeated tags:**
  * A repeated tag value has its index overwritten by the map's current
    size. `-C X -U Y -C X -G Z` gives three entries with two equal indices,
    and this passes the three-distinct-tags check (`RepeatedTagIndicesCollide`).
  * `-C X -U X -G Y` gives two entries and fails that check.
* **White list:** the white-list file is never checked.
* **Help:**
  * The help option of tagsort exits 0.
  * The help option of the FASTQ readers returns without running any check.
* **Verbose listing:** both FASTQ readers test a local `verbose_flag` that is
  initialised to 0 and never set, because `--verbose` sets the record's flag.
  So the listing of file lists never runs, and the drivers prove
  `listed == []`.

## Model

| member | source | states |
|---|---|---|
| Getopt.FoldEndsIffAllHandled | fastqpreprocessing/src/input_options.cpp:60-139 | the option loop runs to the end of the options exactly when every option character is one that the `switch` handles without leaving the loop |
| Getopt.FoldStopsAtFirstUnhandled | fastqpreprocessing/src/input_options.cpp:122-138 | the first help or unknown option ends the loop: the record is what the options before it made of it, the loop ends with help for `?`/`h` and with an abort otherwise, and no later option is looked at |
| Getopt.FoldSnoc | fastqpreprocessing/src/input_options.cpp:60-139 | after a run of handled options, handling one more option is one more step of the `switch` on the record the run produced |
| Getopt.FoldLast | fastqpreprocessing/src/input_options.cpp:60-139 | a non-empty run of handled options is the run before its last option followed by one more step of the `switch`, and that shorter run is all handled too |
| Getopt.LastEventIsLast | fastqpreprocessing/src/input_options.cpp:83-121 | the event an option's value comes from is the last one with that option character; when it is absent, no event carries that character |
| Getopt.ArgsOfElements | fastqpreprocessing/src/input_options.cpp:295-303 | the collected arguments are exactly the arguments of the events with the given characters, and there are no more of them than events |
| Tagsort.InsertTag | fastqpreprocessing/src/input_options.cpp:104-118 | after `tag_order[v] = curr_size`, the keys are the old keys plus `v`, `v` is mapped to the size before the insert, every other key keeps its index, and the size grows by one exactly when `v` was new |
| Tagsort.ParseStrings | fastqpreprocessing/src/input_options.cpp:83-97 | after the option loop, every string option (bam input, gtf file, temp folder, both output files, the three tags, metric type) holds the argument of its last occurrence, or its earlier value when absent |
| Tagsort.ParseNumbersAndFlags | fastqpreprocessing/src/input_options.cpp:68-73 | alignments per thread and thread count hold `atoi` of their last argument; `--compute-metric` and `--output-sorted-info` are set by any occurrence |
| Tagsort.ParseTagOrder | fastqpreprocessing/src/input_options.cpp:104-118 | the tag map is the start map with every `-C`/`-U`/`-G` argument inserted in stream order |
| Tagsort.ParseResult | fastqpreprocessing/src/input_options.cpp:60-139 | a stream of handled options runs to the end; every field is its last value, its flags or its insertions, and nothing else changes |
| Tagsort.InsertTagsKeys | fastqpreprocessing/src/input_options.cpp:104-118 | the keys of the tag map are exactly the earlier keys and the tags ever supplied |
| Tagsort.DistinctTagCount | fastqpreprocessing/src/input_options.cpp:104-118 | from an empty map, the size of `tag_order` is the number of distinct tag values supplied, however often each was repeated |
| Tagsort.InsertDistinctTags | fastqpreprocessing/src/input_options.cpp:104-118 | pairwise distinct tags get the indices 0, 1, 2, … in the order given |
| Tagsort.RepeatedTagIndicesCollide | fastqpreprocessing/src/input_options.cpp:104-118 | `-C X -U Y -C X -G Z` gives {X:2, Y:1, Z:2}: three entries, two equal indices |
| Tagsort.GzRegexSearchIsSuffixTest | fastqpreprocessing/src/input_options.cpp:171-175 | the gtf file is rejected exactly when it has at least three characters, ends in `gz` in either case, and the character before is not a line terminator; an empty name is never rejected |
| Tagsort.GzExamples | fastqpreprocessing/src/input_options.cpp:171-175 | `annot.gtf.gz`, `annot.GZ`, `annotgz` and `a` followed by the three UTF-8 bytes of U+2028 and `gz` are rejected; `annot.gtf`, the empty name, `gz` and `annot` newline `gz` are not |
| Tagsort.OutputModeRule | fastqpreprocessing/src/input_options.cpp:143-154 | with neither mode requested, the first error is the no-output error; with a mode requested, the first error is the missing-output-file error exactly when no requested mode has its output file |
| Tagsort.MetricTypeRule | fastqpreprocessing/src/input_options.cpp:157-168 | the metric type fails exactly when it is not "cell" or "gene"; once it passes, the gtf check fails exactly for "cell" with no gtf file |
| Tagsort.NumericBoundaries | fastqpreprocessing/src/input_options.cpp:206-217 | 999 alignments per thread fail and 1000 pass; 0 and MAX_THREADS + 1 threads fail, and 1 and MAX_THREADS threads pass |
| Tagsort.DuplicateTagFails | fastqpreprocessing/src/input_options.cpp:104-118 | `-C X -U X -G Y` leaves two tags, so the three-distinct-tags check fails |
| Tagsort.ExampleParses | fastqpreprocessing/src/input_options.cpp:60-139 | `--bam-input in.bam --barcode-tag CB --umi-tag UB --gene-tag GX --metric-type gene --compute-metric --metric-output out.tsv` fills the record with the tag map {CB:0, UB:1, GX:2} and sets compute-metric |
| Tagsort.ExamplePassesChecks | fastqpreprocessing/src/input_options.cpp:141-218 | that record passes every check when the bam input and `/tmp` exist |
| Tagsort.TagsortOptions.constructor | fastqpreprocessing/src/input_options.cpp:45-49 | a new record holds the defaults the help text announces |
| Tagsort.TagsortOptions.Apply | fastqpreprocessing/src/input_options.cpp:67-121 | one `case` of the `switch`: the option's own field is set (a flag to true, a number to `atoi`, a string to the argument), a tag option also inserts into `tag_order`, and every other field keeps its value |
| Tagsort.TagsortOptions.Check | fastqpreprocessing/src/input_options.cpp:141-217 | the checks pass exactly when no rule is violated; otherwise the error reported is the violated rule that comes first in check order |
| Tagsort.ReadOptionsTagsort | fastqpreprocessing/src/input_options.cpp:14-218 | the record ends as the option loop leaves it; help exits 0 and an unknown option aborts, neither running a check; otherwise the reader returns exactly when all checks pass and else exits 1 with the first violated rule |
| FastqRules.FileCountRules | fastqpreprocessing/src/input_options.cpp:331-364 | the three file-count checks pass exactly when R1 and R2 have the same non-zero number of files and I1 has none or as many as R1 |
| FastqRules.StrictlyRankedUnique | fastqpreprocessing/src/input_options.cpp:331-398 | two reports in check order, each error at most once, with the same errors are the same list |
| FastqRules.CheckedAt | fastqpreprocessing/src/input_options.cpp:331-398 | each check reports exactly one error, which has that check's position |
| FastqRules.NonEmptyLists | fastqpreprocessing/src/input_options.cpp:401-413 | the verbose listing names exactly the file lists that are non-empty |
| Fastqprocess.ParseScalars | fastqpreprocessing/src/input_options.cpp:270-309 | after the option loop, barcode length, UMI length, bam size, sample id, white list and output format hold their last value; `--verbose` sets the record's flag |
| Fastqprocess.ParseLists | fastqpreprocessing/src/input_options.cpp:295-303 | `-I`/`-R`/`-r` append their arguments to I1s/R1s/R2s in argument order |
| Fastqprocess.ParseResult | fastqpreprocessing/src/input_options.cpp:263-327 | a stream of handled options runs to the end; every field is its last value or its appended list, and nothing else changes |
| Fastqprocess.ReportIsUnique | fastqpreprocessing/src/input_options.cpp:331-398 | the report on a record is determined by the record |
| Fastqprocess.PassesIff | fastqpreprocessing/src/input_options.cpp:331-417 | nothing is reported exactly when R1 and R2 have the same non-zero count, I1 is empty or as long as R1, the bam size is positive, the sample id is non-empty, the output format is FASTQ or BAM, and both lengths are positive |
| Fastqprocess.WhiteListNotChecked | fastqpreprocessing/src/input_options.cpp:329-398 | changing the white-list file changes no check's outcome |
| Fastqprocess.UnequalCountsReported | fastqpreprocessing/src/input_options.cpp:332-344 | two R1 files and one R2 file, everything else valid: only the count mismatch is reported, with both counts |
| Fastqprocess.MissingR1AlsoReported | fastqpreprocessing/src/input_options.cpp:332-351 | no R1 file and one R2 file: the mismatch and then the missing R1 file are reported |
| Fastqprocess.I1Optional | fastqpreprocessing/src/input_options.cpp:354-363 | with two R1 files, no I1 file passes the I1 check and one I1 file fails it |
| Fastqprocess.ExampleParses | fastqpreprocessing/src/input_options.cpp:263-327 | `--R1 a.fastq --R2 b.fastq --sample-id S1 --barcode-length 16 --umi-length 10 --output-format FASTQ --white-list wl.txt` runs the option loop to its end and leaves one R1 file `a.fastq`, one R2 file `b.fastq`, sample id S1, lengths 16 and 10, format FASTQ and white list `wl.txt`, with no I1 file |
| Fastqprocess.ExamplePassesChecks | fastqpreprocessing/src/input_options.cpp:331-398 | the checks report nothing on that record |
| Fastqprocess.ViolationIsChecked | fastqpreprocessing/src/input_options.cpp:331-398 | every rule a record violates is the error that the check at its position reports |
| Fastqprocess.FailsIffViolates | fastqpreprocessing/src/input_options.cpp:331-398 | the condition the reader tests at each position holds exactly when the error that position reports is a violated rule |
| Fastqprocess.ReportBelowSound | fastqpreprocessing/src/input_options.cpp:331-398 | the first k checks report, in check order and each once, exactly the violated rules among them |
| Fastqprocess.ReportIsReport | fastqpreprocessing/src/input_options.cpp:331-398 | running all the checks in order reports exactly the violated rules |
| Fastqprocess.FastqprocessOptions.constructor | fastqpreprocessing/src/input_options.cpp:248-257 | a new record holds a bam size of 1 GB, as the help text announces, and is otherwise empty |
| Fastqprocess.FastqprocessOptions.Apply | fastqpreprocessing/src/input_options.cpp:270-309 | one `case` of the `switch`: a scalar option sets its field, `-I`/`-R`/`-r` push back their argument, `-v` sets the record's verbose flag, and every other field keeps its value |
| Fastqprocess.FastqprocessOptions.Check | fastqpreprocessing/src/input_options.cpp:331-398 | the errors are every violated rule once, in check order, and nothing else; `exit_with_error` is set exactly when some error was reported |
| Fastqprocess.ReadOptionsFastqprocess | fastqpreprocessing/src/input_options.cpp:222-418 | the record ends as the option loop leaves it; help returns and an unknown option aborts, neither running a check; otherwise the reader returns exactly when no rule is violated and else exits 1 with the full report; the verbose listing prints nothing |
| FastqSlideseq.ParseScalars | fastqpreprocessing/src/input_options.cpp:465-501 | after the option loop, bam size, read structure, sample id, white list and output format hold their last value; `--verbose` sets the record's flag |
| FastqSlideseq.ParseLists | fastqpreprocessing/src/input_options.cpp:487-495 | `-I`/`-R`/`-r` append their arguments to I1s/R1s/R2s in argument order |
| FastqSlideseq.ParseResult | fastqpreprocessing/src/input_options.cpp:458-519 | a stream of handled options runs to the end; every field is its last value or its appended list, and nothing else changes |
| FastqSlideseq.ReportIsUnique | fastqpreprocessing/src/input_options.cpp:523-585 | the report on a record is determined by the record |
| FastqSlideseq.PassesIff | fastqpreprocessing/src/input_options.cpp:523-600 | nothing is reported exactly when R1 and R2 have the same non-zero count, I1 is empty or as long as R1, the bam size is positive, and the read structure, the sample id and an output format of FASTQ or BAM are given |
| FastqSlideseq.WhiteListNotChecked | fastqpreprocessing/src/input_options.cpp:521-585 | changing the white-list file changes no check's outcome |
| FastqSlideseq.DefaultsReported | fastqpreprocessing/src/input_options.cpp:523-585 | a record with no options fails four checks, reported in order: no R1 file, no read structure, no sample id, bad output format |
| FastqSlideseq.ViolationIsChecked | fastqpreprocessing/src/input_options.cpp:523-585 | every rule a record violates is the error that the check at its position reports |
| FastqSlideseq.FailsIffViolates | fastqpreprocessing/src/input_options.cpp:523-585 | the condition the reader tests at each position holds exactly when the error that position reports is a violated rule |
| FastqSlideseq.ReportBelowSound | fastqpreprocessing/src/input_options.cpp:523-585 | the first k checks report, in check order and each once, exactly the violated rules among them |
| FastqSlideseq.ReportIsReport | fastqpreprocessing/src/input_options.cpp:523-585 | running all the checks in order reports exactly the violated rules |
| FastqSlideseq.SlideseqOptions.constructor | fastqpreprocessing/src/input_options.cpp:443-453 | a new record holds a bam size of 1 GB, as the help text announces, and is otherwise empty |
| FastqSlideseq.SlideseqOptions.Apply | fastqpreprocessing/src/input_options.cpp:465-501 | one `case` of the `switch`: a scalar option sets its field, `-I`/`-R`/`-r` push back their argument, `-v` sets the record's verbose flag, and every other field keeps its value |
| FastqSlideseq.SlideseqOptions.Check | fastqpreprocessing/src/input_options.cpp:523-585 | the errors are every violated rule once, in check order, and nothing else; `exit_with_error` is set exactly when some error was reported |
| FastqSlideseq.ReadOptionsFastqSlideseq | fastqpreprocessing/src/input_options.cpp:420-601 | the record ends as the option loop leaves it; help returns and an unknown option aborts, neither running a check; otherwise the reader returns exactly when no rule is violated and else exits 1 with the full report; the verbose listing (R1 and R2 only) prints nothing |

## Left out

- `getopt_long` is a C library routine and is not modelled: argument permutation, long-name matching and missing-argument detection. A reader sees the sequence of events it returns. `atoi` and `atof` of `optarg` are carried in each event as already-converted numbers.
- `case 0`: with every `long_options` entry's `flag` null, `getopt_long` never returns 0 here. The case only prints, so it is modelled as a handled option that changes nothing.
- Printing is not modelled: the usage text, the `case 0` output, the error messages, and the duplication of FASTQ messages on stdout and stderr. The message text is represented by the error constructor. The unequal-count error also carries both counts.
- `error_message` and `_print_file_info` are defined outside this file. The verbose listing is represented by the labels of the lists it would print.
- `fs::exists` is filesystem I/O. It is a parameter `fsExists` of the tagsort checks.
- `fs::exists` without an `error_code` throws `filesystem_error` when `stat` fails for a reason other than a missing file (for example `EACCES` or `ENAMETOOLONG`). Nothing catches it, so the process terminates. The total parameter `fsExists` does not capture that outcome.
- `MAX_THREADS` comes from a header that is not part of this model. It is a parameter `maxThreads`.
- `exit(0)`, `exit(1)` and `abort()` are modelled as the returned status.
- Process termination itself is not modelled.
- The initial values of the records come from a header that is not part of this model. The constructors use the defaults the help text announces: temp folder `/tmp`, 1000000 alignments per thread, one thread, bam size 1 GB. Every other field starts empty, zero or false.
- `bam_size` is a C `float` and is modelled as a `real`. Its only use here is the test `<= 0`.
- `atoi` overflow and C `int` width are not modelled, because the numbers are taken as already converted.
- The `std::regex` search is modelled only for the one pattern the source uses, `.gz$` with `icase`, in the ECMAScript grammar over `char`. Case folding is ASCII-only, as in the C locale.
- Strings are `seq<char>` and stand for the bytes of a `std::string`, one character per byte (every character below 256). Encodings are not modelled, so `.` rejects only newline and carriage return.
