/**
 * The option reader of the tagsort command (`read_options_tagsort`): the
 * option loop that fills an INPUT_OPTIONS_TAGSORT record, and the checks that
 * follow it, which stop at the first failure.
 */
module Tagsort {
  import opened Getopt

  /** The value held by an INPUT_OPTIONS_TAGSORT record. */
  datatype TagsortConfig = TagsortConfig(
    bamInput: string,
    gtfFile: string,
    tempFolder: string,
    sortedOutputFile: string,
    metricOutputFile: string,
    alignmentsPerThread: int,
    nthreads: int,
    barcodeTag: string,
    umiTag: string,
    geneTag: string,
    metricType: string,
    computeMetric: bool,
    outputSortedInfo: bool,
    tagOrder: map<string, int>)

  /** The defaults that the help text announces (temp folder `/tmp`,
      1000000 alignments per thread, one thread); every other field starts
      empty, zero or unset. */
  function Defaults(): TagsortConfig {
    TagsortConfig("", "", "/tmp", "", "", 1000000, 1, "", "", "", "", false, false, map[])
  }

  /** The option characters the `switch` of the tagsort reader knows. */
  function Kind(code: char): EventKind {
    match code
    case 'm' | 'n' | 'b' | 'a' | 't' | 'o' | 'M' | 'p' | 'T' | 'C' | 'U' | 'G' | 'K' | '\0' => Handled
    case '?' | 'h' => Help
    case _ => Unknown
  }

  /** `tag_order[v] = curr_size`, where `curr_size` is the size of the map
      before the assignment: a new tag gets the next index, a repeated tag
      has its index overwritten by the current size. */
  function InsertTag(m: map<string, int>, v: string): (r: map<string, int>)
    ensures v in r && r[v] == |m|
    ensures |r| == if v in m then |m| else |m| + 1
    ensures forall k :: k in r <==> k in m || k == v
    ensures forall k {:trigger r[k]} :: k in m && k != v ==> r[k] == m[k]
  {
    m[v := |m|]
  }

  /** The tags of `vs` inserted one after the other. */
  function InsertTags(m: map<string, int>, vs: seq<string>): map<string, int>
    decreases |vs|
  {
    if vs == [] then m else InsertTag(InsertTags(m, vs[..|vs| - 1]), vs[|vs| - 1])
  }

  /** Inserting one more tag after a run of tags. */
  lemma InsertTagsSnoc(m: map<string, int>, vs: seq<string>, v: string)
    ensures InsertTags(m, vs + [v]) == InsertTag(InsertTags(m, vs), v)
  {
    assert (vs + [v])[..|vs|] == vs;
  }

  /** The effect of one handled event on the record, field by field: an
      option sets its own field (a flag to true, a number to `atoi` of the
      argument, a string to the argument), a tag option also inserts its
      argument into the tag map, and nothing else changes. */
  function Step(c: TagsortConfig, e: OptionEvent): TagsortConfig {
    c.(bamInput := if e.code == 'b' then e.arg else c.bamInput,
       gtfFile := if e.code == 'a' then e.arg else c.gtfFile,
       tempFolder := if e.code == 't' then e.arg else c.tempFolder,
       sortedOutputFile := if e.code == 'o' then e.arg else c.sortedOutputFile,
       metricOutputFile := if e.code == 'M' then e.arg else c.metricOutputFile,
       alignmentsPerThread := if e.code == 'p' then e.argInt else c.alignmentsPerThread,
       nthreads := if e.code == 'T' then e.argInt else c.nthreads,
       barcodeTag := if e.code == 'C' then e.arg else c.barcodeTag,
       umiTag := if e.code == 'U' then e.arg else c.umiTag,
       geneTag := if e.code == 'G' then e.arg else c.geneTag,
       metricType := if e.code == 'K' then e.arg else c.metricType,
       computeMetric := c.computeMetric || e.code == 'm',
       outputSortedInfo := c.outputSortedInfo || e.code == 'n',
       tagOrder := if e.code == 'C' || e.code == 'U' || e.code == 'G' then InsertTag(c.tagOrder, e.arg) else c.tagOrder)
  }

  /** The whole option loop of the tagsort reader. */
  function Parse(c: TagsortConfig, evs: seq<OptionEvent>): Parsed<TagsortConfig> {
    Fold(c, evs, Kind, Step)
  }

  const TagCodes: set<char> := {'C', 'U', 'G'}

  /** The string options: each holds the argument of its last occurrence. */
  lemma {:induction false} ParseStrings(c: TagsortConfig, evs: seq<OptionEvent>)
    requires AllHandled(evs, Kind)
    ensures var r := Parse(c, evs).config;
      && r.bamInput == LastArg(evs, 'b', c.bamInput)
      && r.gtfFile == LastArg(evs, 'a', c.gtfFile)
      && r.tempFolder == LastArg(evs, 't', c.tempFolder)
      && r.sortedOutputFile == LastArg(evs, 'o', c.sortedOutputFile)
      && r.metricOutputFile == LastArg(evs, 'M', c.metricOutputFile)
      && r.barcodeTag == LastArg(evs, 'C', c.barcodeTag)
      && r.umiTag == LastArg(evs, 'U', c.umiTag)
      && r.geneTag == LastArg(evs, 'G', c.geneTag)
      && r.metricType == LastArg(evs, 'K', c.metricType)
    decreases |evs|
  {
    if evs != [] {
      var n := |evs| - 1;
      FoldLast(c, evs, Kind, Step);
      ParseStrings(c, evs[..n]);
    }
  }

  /** The numeric options hold their last value; the two flags are set by
      any occurrence. */
  lemma {:induction false} ParseNumbersAndFlags(c: TagsortConfig, evs: seq<OptionEvent>)
    requires AllHandled(evs, Kind)
    ensures var r := Parse(c, evs).config;
      && r.alignmentsPerThread == LastInt(evs, 'p', c.alignmentsPerThread)
      && r.nthreads == LastInt(evs, 'T', c.nthreads)
      && r.computeMetric == (c.computeMetric || Occurs(evs, 'm'))
      && r.outputSortedInfo == (c.outputSortedInfo || Occurs(evs, 'n'))
    decreases |evs|
  {
    if evs != [] {
      var n := |evs| - 1;
      FoldLast(c, evs, Kind, Step);
      ParseNumbersAndFlags(c, evs[..n]);
    }
  }

  /** The tag map has every `-C`/`-U`/`-G` argument inserted in stream order. */
  lemma {:induction false} ParseTagOrder(c: TagsortConfig, evs: seq<OptionEvent>)
    requires AllHandled(evs, Kind)
    ensures Parse(c, evs).config.tagOrder == InsertTags(c.tagOrder, ArgsOf(evs, TagCodes))
    decreases |evs|
  {
    if evs != [] {
      var n := |evs| - 1;
      var e := evs[n];
      var before := Parse(c, evs[..n]).config;
      var args := ArgsOf(evs[..n], TagCodes);
      FoldLast(c, evs, Kind, Step);
      assert Parse(c, evs).config.tagOrder == Step(before, e).tagOrder;
      ParseTagOrder(c, evs[..n]);
      ArgsOfLast(evs, TagCodes);
      if e.code in TagCodes {
        calc {
          Step(before, e).tagOrder;
          InsertTag(InsertTags(c.tagOrder, args), e.arg);
          { InsertTagsSnoc(c.tagOrder, args, e.arg); }
          InsertTags(c.tagOrder, args + [e.arg]);
        }
      }
    }
  }

  /** When the loop runs to the end, every scalar option holds its last
      value, the flags are set by any occurrence, the tag map has every tag
      argument inserted in order, and no other field changes. */
  lemma ParseResult(c: TagsortConfig, evs: seq<OptionEvent>)
    requires AllHandled(evs, Kind)
    ensures Parse(c, evs).stop == EndOfOptions
    ensures var r := Parse(c, evs).config;
      && r.bamInput == LastArg(evs, 'b', c.bamInput)
      && r.gtfFile == LastArg(evs, 'a', c.gtfFile)
      && r.tempFolder == LastArg(evs, 't', c.tempFolder)
      && r.sortedOutputFile == LastArg(evs, 'o', c.sortedOutputFile)
      && r.metricOutputFile == LastArg(evs, 'M', c.metricOutputFile)
      && r.alignmentsPerThread == LastInt(evs, 'p', c.alignmentsPerThread)
      && r.nthreads == LastInt(evs, 'T', c.nthreads)
      && r.barcodeTag == LastArg(evs, 'C', c.barcodeTag)
      && r.umiTag == LastArg(evs, 'U', c.umiTag)
      && r.geneTag == LastArg(evs, 'G', c.geneTag)
      && r.metricType == LastArg(evs, 'K', c.metricType)
      && r.computeMetric == (c.computeMetric || Occurs(evs, 'm'))
      && r.outputSortedInfo == (c.outputSortedInfo || Occurs(evs, 'n'))
      && r.tagOrder == InsertTags(c.tagOrder, ArgsOf(evs, TagCodes))
  {
    FoldEndsIffAllHandled(c, evs, Kind, Step);
    ParseStrings(c, evs);
    ParseNumbersAndFlags(c, evs);
    ParseTagOrder(c, evs);
  }

  /** The keys of the tag map are the tags ever supplied. */
  lemma {:induction false} InsertTagsKeys(m: map<string, int>, vs: seq<string>)
    ensures forall k :: k in InsertTags(m, vs) <==> k in m || k in vs
    decreases |vs|
  {
    if vs != [] {
      var n := |vs| - 1;
      InsertTagsKeys(m, vs[..n]);
      assert vs == vs[..n] + [vs[n]];
    }
  }

  /** Starting from an empty map, the size of `tag_order` is the number of
      distinct tag values supplied, however often each was repeated. */
  lemma DistinctTagCount(vs: seq<string>)
    ensures |InsertTags(map[], vs)| == |set v | v in vs|
  {
    InsertTagsKeys(map[], vs);
    assert InsertTags(map[], vs).Keys == set v | v in vs;
  }

  /** Pairwise distinct tags get the indices 0, 1, 2, ... in order. */
  lemma {:induction false} InsertDistinctTags(vs: seq<string>)
    requires forall i, j :: 0 <= i < j < |vs| ==> vs[i] != vs[j]
    ensures |InsertTags(map[], vs)| == |vs|
    ensures forall i :: 0 <= i < |vs| ==> vs[i] in InsertTags(map[], vs) && InsertTags(map[], vs)[vs[i]] == i
    decreases |vs|
  {
    if vs != [] {
      var n := |vs| - 1;
      var pre := vs[..n];
      InsertDistinctTags(pre);
      InsertTagsKeys(map[], pre);
      var m := InsertTags(map[], pre);
      assert vs[n] !in pre by {
        forall i | 0 <= i < n ensures pre[i] != vs[n] {
          assert pre[i] == vs[i];
        }
      }
      assert InsertTags(map[], vs) == m[vs[n] := n];
      forall i | 0 <= i < n ensures vs[i] in InsertTags(map[], vs) && InsertTags(map[], vs)[vs[i]] == i {
        assert pre[i] == vs[i];
      }
    }
  }

  /** As written, a repeated tag re-indexed after a new tag leaves two tags
      with the same index while the map still has three entries:
      `-C X -U Y -C X -G Z` gives {X:2, Y:1, Z:2}. */
  lemma RepeatedTagIndicesCollide()
    ensures InsertTags(map[], ["X", "Y", "X", "Z"]) == map["X" := 2, "Y" := 1, "Z" := 2]
    ensures |InsertTags(map[], ["X", "Y", "X", "Z"])| == 3
  {
    var m2 := InsertTags(map[], ["X", "Y"]);
    assert ["X", "Y", "X", "Z"][..3] == ["X", "Y", "X"];
    assert ["X", "Y", "X"][..2] == ["X", "Y"];
    assert ["X", "Y"][..1] == ["X"];
    assert ["X"][..0] == [];
    assert m2 == map["X" := 0, "Y" := 1];
    assert InsertTags(map[], ["X", "Y", "X"]) == map["X" := 2, "Y" := 1];
  }

  // ---------------------------------------------------------------------
  // The checks after the option loop, in the order the reader performs them.

  datatype TagsortError =
    | NoOutputChosen      // neither --compute-metric nor --output-sorted-info
    | OutputFileMissing   // no requested mode has its output file
    | BadMetricType       // metric type is not "cell" or "gene"
    | GtfRequired         // metric type "cell" without a gtf file
    | GtfGzipped          // the gtf file name matches the regex `.gz$`, ignoring case
    | NoBamInput          // empty bam input name
    | BamInputMissing     // the bam input does not exist
    | TempFolderMissing   // the temp folder does not exist
    | TagsNotDistinct     // tag_order does not have three entries
    | TooFewAlignments    // fewer than 1000 alignments per thread
    | ThreadsOutOfRange   // thread count outside [1, MAX_THREADS]

  /** The position of each check in the reader's sequence of checks. */
  function Rank(e: TagsortError): nat {
    match e
    case NoOutputChosen => 0
    case OutputFileMissing => 1
    case BadMetricType => 2
    case GtfRequired => 3
    case GtfGzipped => 4
    case NoBamInput => 5
    case BamInputMissing => 6
    case TempFolderMissing => 7
    case TagsNotDistinct => 8
    case TooFewAlignments => 9
    case ThreadsOutOfRange => 10
  }

  /** Upper-case ASCII letters folded to lower case, as `icase` matching does. */
  function FoldCase(ch: char): char {
    if 'A' <= ch <= 'Z' then (ch as int - 'A' as int + 'a' as int) as char else ch
  }

  /** The characters that the regex `.` does not match. A string here stands
      for the bytes of a `std::string`, one character per byte, and over
      `char` the only line terminators are newline and carriage return. */
  predicate IsLineTerminator(ch: char) {
    ch == '\n' || ch == '\r'
  }

  /** The regex `.gz$` (ignoring case) matches `s` starting at position `i`:
      any character but a line terminator, then `g`, then `z`, then the end. */
  predicate GzMatchesAt(s: string, i: int) {
    0 <= i && i + 3 == |s|
    && !IsLineTerminator(s[i]) && FoldCase(s[i + 1]) == 'g' && FoldCase(s[i + 2]) == 'z'
  }

  /** `std::regex_search(s, std::regex(".gz$", icase))`: a match anywhere in `s`. */
  predicate GzRegexSearch(s: string) {
    exists i :: 0 <= i <= |s| && GzMatchesAt(s, i)
  }

  /** The search succeeds exactly when `s` has at least three characters, ends
      in "gz" in either case, and the character before that is not a line
      terminator; in particular "annotgz" is rejected although it has no `.`,
      and an empty or two-character name is never rejected. */
  lemma GzRegexSearchIsSuffixTest(s: string)
    ensures GzRegexSearch(s) <==>
      |s| >= 3 && !IsLineTerminator(s[|s| - 3])
      && s[|s| - 2] in {'g', 'G'} && s[|s| - 1] in {'z', 'Z'}
  {
    if |s| >= 3 && !IsLineTerminator(s[|s| - 3]) && s[|s| - 2] in {'g', 'G'} && s[|s| - 1] in {'z', 'Z'} {
      assert GzMatchesAt(s, |s| - 3);
    }
  }

  lemma GzExamples()
    ensures GzRegexSearch("annot.gtf.gz") && GzRegexSearch("annot.GZ") && GzRegexSearch("annotgz")
    ensures !GzRegexSearch("annot.gtf") && !GzRegexSearch("") && !GzRegexSearch("gz")
    ensures GzRegexSearch("a\U{E2}\U{80}\U{A8}gz") && !GzRegexSearch("annot\ngz")
  {
    GzRegexSearchIsSuffixTest("annot.gtf.gz");
    GzRegexSearchIsSuffixTest("annot.GZ");
    GzRegexSearchIsSuffixTest("annotgz");
    GzRegexSearchIsSuffixTest("annot.gtf");
    GzRegexSearchIsSuffixTest("");
    GzRegexSearchIsSuffixTest("gz");
    GzRegexSearchIsSuffixTest("a\U{E2}\U{80}\U{A8}gz");
    GzRegexSearchIsSuffixTest("annot\ngz");
  }

  /** Whether the check that reports `e` fails on `c`, when reached.
      `fsExists` stands for `fs::exists`, `maxThreads` for MAX_THREADS. */
  predicate Violates(c: TagsortConfig, fsExists: string -> bool, maxThreads: int, e: TagsortError) {
    match e
    case NoOutputChosen => !c.outputSortedInfo && !c.computeMetric
    case OutputFileMissing =>
      !(|c.metricOutputFile| != 0 && c.computeMetric) && !(|c.sortedOutputFile| != 0 && c.outputSortedInfo)
    case BadMetricType => |c.metricType| == 0 || (c.metricType != "cell" && c.metricType != "gene")
    case GtfRequired => c.metricType == "cell" && |c.gtfFile| == 0
    case GtfGzipped => GzRegexSearch(c.gtfFile)
    case NoBamInput => |c.bamInput| == 0
    case BamInputMissing => !fsExists(c.bamInput)
    case TempFolderMissing => !fsExists(c.tempFolder)
    case TagsNotDistinct => |c.tagOrder| != 3
    case TooFewAlignments => c.alignmentsPerThread < 1000
    case ThreadsOutOfRange => c.nthreads > maxThreads || c.nthreads < 1
  }

  /** `e` fails and every check before it passes: the one error reported. */
  predicate IsFirstViolation(c: TagsortConfig, fsExists: string -> bool, maxThreads: int, e: TagsortError) {
    Violates(c, fsExists, maxThreads, e)
    && forall e' :: Rank(e') < Rank(e) ==> !Violates(c, fsExists, maxThreads, e')
  }

  predicate AllChecksPass(c: TagsortConfig, fsExists: string -> bool, maxThreads: int) {
    forall e :: !Violates(c, fsExists, maxThreads, e)
  }

  /** The output-mode rule: with a mode requested, it is enough that ONE
      requested mode has its file; a second requested mode may lack its file. */
  lemma OutputModeRule(c: TagsortConfig, fsExists: string -> bool, maxThreads: int)
    ensures (!c.computeMetric && !c.outputSortedInfo) ==> IsFirstViolation(c, fsExists, maxThreads, NoOutputChosen)
    ensures (c.computeMetric || c.outputSortedInfo) ==>
      (IsFirstViolation(c, fsExists, maxThreads, OutputFileMissing) <==>
        !(c.computeMetric && c.metricOutputFile != "") && !(c.outputSortedInfo && c.sortedOutputFile != ""))
  {
    if c.computeMetric || c.outputSortedInfo {
      assert !Violates(c, fsExists, maxThreads, NoOutputChosen);
    }
  }

  /** The metric type must be exactly "cell" or "gene", and "cell" needs a gtf file. */
  lemma MetricTypeRule(c: TagsortConfig, fsExists: string -> bool, maxThreads: int)
    ensures Violates(c, fsExists, maxThreads, BadMetricType) <==> c.metricType !in {"cell", "gene"}
    ensures !Violates(c, fsExists, maxThreads, BadMetricType) ==>
      (Violates(c, fsExists, maxThreads, GtfRequired) <==> c.metricType == "cell" && c.gtfFile == "")
  {
  }

  /** Boundaries of the two numeric checks. */
  lemma NumericBoundaries(c: TagsortConfig, fsExists: string -> bool, maxThreads: int)
    requires maxThreads >= 1
    ensures Violates(c.(alignmentsPerThread := 999), fsExists, maxThreads, TooFewAlignments)
    ensures !Violates(c.(alignmentsPerThread := 1000), fsExists, maxThreads, TooFewAlignments)
    ensures Violates(c.(nthreads := 0), fsExists, maxThreads, ThreadsOutOfRange)
    ensures Violates(c.(nthreads := maxThreads + 1), fsExists, maxThreads, ThreadsOutOfRange)
    ensures !Violates(c.(nthreads := 1), fsExists, maxThreads, ThreadsOutOfRange)
    ensures !Violates(c.(nthreads := maxThreads), fsExists, maxThreads, ThreadsOutOfRange)
  {
  }

  function Ev(code: char, arg: string): OptionEvent {
    OptionEvent(code, arg, 0, 0.0)
  }

  /** One handled event at the front of the stream is one step. */
  lemma ParseCons(c: TagsortConfig, e: OptionEvent, evs: seq<OptionEvent>)
    requires Kind(e.code) == Handled
    ensures Parse(c, [e] + evs) == Parse(Step(c, e), evs)
  {
    assert ([e] + evs)[0] == e && ([e] + evs)[1..] == evs;
  }

  /** `--barcode-tag X --umi-tag X --gene-tag Y` leaves two tags, so the run
      fails with the distinct-tags error when every earlier check passes. */
  lemma DuplicateTagFails(c: TagsortConfig, fsExists: string -> bool, maxThreads: int)
    requires c.tagOrder == map[]
    ensures var r := Parse(c, [Ev('C', "X"), Ev('U', "X"), Ev('G', "Y")]).config;
      |r.tagOrder| == 2 && Violates(r, fsExists, maxThreads, TagsNotDistinct)
  {
    var c1 := Step(c, Ev('C', "X"));
    var c2 := Step(c1, Ev('U', "X"));
    var c3 := Step(c2, Ev('G', "Y"));
    ParseCons(c2, Ev('G', "Y"), []);
    ParseCons(c1, Ev('U', "X"), [Ev('G', "Y")]);
    ParseCons(c, Ev('C', "X"), [Ev('U', "X"), Ev('G', "Y")]);
    assert [Ev('C', "X")] + [Ev('U', "X"), Ev('G', "Y")] == [Ev('C', "X"), Ev('U', "X"), Ev('G', "Y")];
    assert [Ev('U', "X")] + [Ev('G', "Y")] == [Ev('U', "X"), Ev('G', "Y")];
    assert [Ev('G', "Y")] + [] == [Ev('G', "Y")];
    assert c3.tagOrder == map["X" := 1, "Y" := 1];
  }

  /** The record after the example's first four options
      `--bam-input in.bam --barcode-tag CB --umi-tag UB --gene-tag GX`. */
  lemma ExampleTagOptions(e1: OptionEvent, e2: OptionEvent, e3: OptionEvent, e4: OptionEvent)
    requires e1 == Ev('b', "in.bam") && e2 == Ev('C', "CB") && e3 == Ev('U', "UB") && e4 == Ev('G', "GX")
    ensures Step(Step(Step(Step(Defaults(), e1), e2), e3), e4)
         == TagsortConfig("in.bam", "", "/tmp", "", "", 1000000, 1, "CB", "UB", "GX",
                          "", false, false, map["CB" := 0, "UB" := 1, "GX" := 2])
  {
    var c3 := Step(Step(Step(Defaults(), e1), e2), e3);
    assert Step(c3, e4).tagOrder == map["CB" := 0, "UB" := 1, "GX" := 2];
  }

  /** ... and the last three `--metric-type gene --compute-metric
      --metric-output out.tsv` complete it. */
  lemma ExampleMetricOptions(c: TagsortConfig, e5: OptionEvent, e6: OptionEvent, e7: OptionEvent)
    requires c == TagsortConfig("in.bam", "", "/tmp", "", "", 1000000, 1, "CB", "UB", "GX",
                                "", false, false, map["CB" := 0, "UB" := 1, "GX" := 2])
    requires e5 == Ev('K', "gene") && e6 == Ev('m', "") && e7 == Ev('M', "out.tsv")
    ensures Step(Step(Step(c, e5), e6), e7) == ExampleRecord()
  {
  }

  /** The example command line `--bam-input in.bam --barcode-tag CB
      --umi-tag UB --gene-tag GX --metric-type gene --compute-metric
      --metric-output out.tsv`, as getopt_long returns it, fills the record
      from the defaults with the tag map {CB:0, UB:1, GX:2}. */
  lemma ExampleParses(e1: OptionEvent, e2: OptionEvent, e3: OptionEvent, e4: OptionEvent,
                      e5: OptionEvent, e6: OptionEvent, e7: OptionEvent)
    requires e1 == Ev('b', "in.bam") && e2 == Ev('C', "CB") && e3 == Ev('U', "UB") && e4 == Ev('G', "GX")
    requires e5 == Ev('K', "gene") && e6 == Ev('m', "") && e7 == Ev('M', "out.tsv")
    ensures Parse(Defaults(), [e1, e2, e3, e4, e5, e6, e7])
         == Parsed(ExampleRecord(), EndOfOptions)
  {
    FoldSeven(Defaults(), e1, e2, e3, e4, e5, e6, e7, Kind, Step);
    ExampleTagOptions(e1, e2, e3, e4);
    ExampleMetricOptions(Step(Step(Step(Step(Defaults(), e1), e2), e3), e4), e5, e6, e7);
  }

  /** The record the example command line produces. */
  function ExampleRecord(): TagsortConfig {
    TagsortConfig("in.bam", "", "/tmp", "", "out.tsv", 1000000, 1, "CB", "UB", "GX",
                  "gene", true, false, map["CB" := 0, "UB" := 1, "GX" := 2])
  }

  /** ... and that record passes every check when the bam input and `/tmp`
      exist. */
  lemma ExamplePassesChecks(c: TagsortConfig, fsExists: string -> bool, maxThreads: int)
    requires c == ExampleRecord()
    requires fsExists("in.bam") && fsExists("/tmp") && maxThreads >= 1
    ensures AllChecksPass(c, fsExists, maxThreads)
  {
    assert |c.tagOrder| == 3 by {
      assert c.tagOrder.Keys == {"CB", "UB", "GX"};
    }
    GzRegexSearchIsSuffixTest(c.gtfFile);
  }

  // ---------------------------------------------------------------------
  // The record the reader fills in place, and the reader itself.

  datatype CheckResult = Pass | Fail(error: TagsortError)

  /** How `read_options_tagsort` ends. */
  datatype TagsortStatus =
    | Returned                       // every check passed
    | HelpExit                       // usage text printed, exit(0)
    | ErrorExit(error: TagsortError) // error_message, exit(1)
    | Aborted                        // abort() on an option character the switch does not know

  class TagsortOptions {
    var bamInput: string
    var gtfFile: string
    var tempFolder: string
    var sortedOutputFile: string
    var metricOutputFile: string
    var alignmentsPerThread: int
    var nthreads: int
    var barcodeTag: string
    var umiTag: string
    var geneTag: string
    var metricType: string
    var computeMetric: bool
    var outputSortedInfo: bool
    var tagOrder: map<string, int>

    function Value(): TagsortConfig
      reads this
    {
      TagsortConfig(bamInput, gtfFile, tempFolder, sortedOutputFile, metricOutputFile,
                    alignmentsPerThread, nthreads, barcodeTag, umiTag, geneTag,
                    metricType, computeMetric, outputSortedInfo, tagOrder)
    }

    constructor ()
      ensures Value() == Defaults()
    {
      bamInput, gtfFile, tempFolder, sortedOutputFile, metricOutputFile := "", "", "/tmp", "", "";
      alignmentsPerThread, nthreads := 1000000, 1;
      barcodeTag, umiTag, geneTag, metricType := "", "", "", "";
      computeMetric, outputSortedInfo := false, false;
      tagOrder := map[];
    }

    /** The state-changing `case`s of the option `switch`. */
    method Apply(e: OptionEvent)
      modifies this
      ensures bamInput == if e.code == 'b' then e.arg else old(bamInput)
      ensures gtfFile == if e.code == 'a' then e.arg else old(gtfFile)
      ensures tempFolder == if e.code == 't' then e.arg else old(tempFolder)
      ensures sortedOutputFile == if e.code == 'o' then e.arg else old(sortedOutputFile)
      ensures metricOutputFile == if e.code == 'M' then e.arg else old(metricOutputFile)
      ensures alignmentsPerThread == if e.code == 'p' then e.argInt else old(alignmentsPerThread)
      ensures nthreads == if e.code == 'T' then e.argInt else old(nthreads)
      ensures barcodeTag == if e.code == 'C' then e.arg else old(barcodeTag)
      ensures umiTag == if e.code == 'U' then e.arg else old(umiTag)
      ensures geneTag == if e.code == 'G' then e.arg else old(geneTag)
      ensures metricType == if e.code == 'K' then e.arg else old(metricType)
      ensures computeMetric == (old(computeMetric) || e.code == 'm')
      ensures outputSortedInfo == (old(outputSortedInfo) || e.code == 'n')
      ensures tagOrder == if e.code == 'C' || e.code == 'U' || e.code == 'G' then InsertTag(old(tagOrder), e.arg) else old(tagOrder)
    {
      match e.code {
        case 'm' => computeMetric := true;
        case 'n' => outputSortedInfo := true;
        case 'b' => bamInput := e.arg;
        case 'a' => gtfFile := e.arg;
        case 't' => tempFolder := e.arg;
        case 'o' => sortedOutputFile := e.arg;
        case 'M' => metricOutputFile := e.arg;
        case 'p' => alignmentsPerThread := e.argInt;
        case 'T' => nthreads := e.argInt;
        case 'C' =>
          barcodeTag := e.arg;
          var currSize := |tagOrder|;
          tagOrder := tagOrder[e.arg := currSize];
        case 'U' =>
          umiTag := e.arg;
          var currSize := |tagOrder|;
          tagOrder := tagOrder[e.arg := currSize];
        case 'G' =>
          geneTag := e.arg;
          var currSize := |tagOrder|;
          tagOrder := tagOrder[e.arg := currSize];
        case 'K' => metricType := e.arg;
        case _ =>  // `case 0` prints the option name only
      }
    }

    /** The checks after the option loop: the first failing one is reported,
        and only when none fails does the reader return. */
    method Check(fsExists: string -> bool, maxThreads: int) returns (r: CheckResult)
      ensures r.Pass? ==> AllChecksPass(Value(), fsExists, maxThreads)
      ensures r.Fail? ==> IsFirstViolation(Value(), fsExists, maxThreads, r.error)
    {
      if !outputSortedInfo && !computeMetric {
        return Fail(NoOutputChosen);
      } else if !(|metricOutputFile| != 0 && computeMetric) && !(|sortedOutputFile| != 0 && outputSortedInfo) {
        return Fail(OutputFileMissing);
      }
      if |metricType| == 0 || (metricType != "cell" && metricType != "gene") {
        return Fail(BadMetricType);
      }
      if metricType == "cell" && |gtfFile| == 0 {
        return Fail(GtfRequired);
      }
      if GzRegexSearch(gtfFile) {
        return Fail(GtfGzipped);
      }
      if |bamInput| == 0 {
        return Fail(NoBamInput);
      }
      if !fsExists(bamInput) {
        return Fail(BamInputMissing);
      }
      if !fsExists(tempFolder) {
        return Fail(TempFolderMissing);
      }
      if |tagOrder| != 3 {
        return Fail(TagsNotDistinct);
      }
      if alignmentsPerThread < 1000 {
        return Fail(TooFewAlignments);
      }
      if nthreads > maxThreads || nthreads < 1 {
        return Fail(ThreadsOutOfRange);
      }
      return Pass;
    }
  }

  /** `read_options_tagsort`: run the option loop over `events`, updating
      `options` in place, then run the checks. */
  method ReadOptionsTagsort(options: TagsortOptions, events: seq<OptionEvent>,
                            fsExists: string -> bool, maxThreads: int) returns (status: TagsortStatus)
    modifies options
    ensures var p := Parse(old(options.Value()), events);
      && options.Value() == p.config
      && (p.stop == HelpRequested ==> status == HelpExit)
      && (p.stop == UnexpectedOption ==> status == Aborted)
      && (p.stop == EndOfOptions ==>
            (status == Returned <==> AllChecksPass(p.config, fsExists, maxThreads))
            && (status != Returned ==> status.ErrorExit? && IsFirstViolation(p.config, fsExists, maxThreads, status.error)))
  {
    var i := 0;
    while i < |events|
      invariant 0 <= i <= |events|
      invariant Parse(old(options.Value()), events) == Parse(options.Value(), events[i..])
    {
      var e := events[i];
      assert events[i..][0] == e && events[i..][1..] == events[i + 1..];
      match Kind(e.code) {
        case Help =>  // `case '?'` and `case 'h'`: usage text, exit(0)
          return HelpExit;
        case Unknown =>  // `default`: abort()
          return Aborted;
        case Handled =>
          ghost var before := options.Value();
          options.Apply(e);
          assert options.Value() == Step(before, e);
      }
      i := i + 1;
    }
    assert events[|events|..] == [];
    var r := options.Check(fsExists, maxThreads);
    if r.Fail? {
      return ErrorExit(r.error);
    }
    return Returned;
  }
}
