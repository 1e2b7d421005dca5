/**
 * The option reader of the slide-seq FASTQ command
 * (`read_options_fastq_slideseq`): the option loop that fills an
 * INPUT_OPTIONS_FASTQ_READ_STRUCTURE record, and the checks that follow it,
 * which all run and report every failure. It takes a read structure where
 * the fastqprocess reader takes barcode and UMI lengths.
 */
module FastqSlideseq {
  import opened Getopt
  import opened FastqRules

  /** The value held by an INPUT_OPTIONS_FASTQ_READ_STRUCTURE record. */
  datatype SlideseqConfig = SlideseqConfig(
    bamSize: real,
    readStructure: string,
    sampleId: string,
    i1s: seq<string>,
    r1s: seq<string>,
    r2s: seq<string>,
    whiteListFile: string,
    outputFormat: string,
    verboseFlag: bool)

  /** The record before any option: a bam size of 1 GB, as the help text
      announces; everything else empty or unset. */
  function Defaults(): SlideseqConfig {
    SlideseqConfig(1.0, "", "", [], [], [], "", "", false)
  }

  /** The option characters the `switch` of the slide-seq reader knows. */
  function Kind(code: char): EventKind {
    match code
    case 'v' | '\0' | 'B' | 'S' | 's' | 'I' | 'R' | 'r' | 'w' | 'F' => Handled
    case '?' | 'h' => Help
    case _ => Unknown
  }

  /** The effect of one handled event, field by field: a scalar option sets
      its own field, `-I`/`-R`/`-r` append their argument to their list,
      `-v` sets the record's verbose flag, and nothing else changes. */
  function Step(c: SlideseqConfig, e: OptionEvent): SlideseqConfig {
    c.(bamSize := if e.code == 'B' then e.argReal else c.bamSize,
       readStructure := if e.code == 'S' then e.arg else c.readStructure,
       sampleId := if e.code == 's' then e.arg else c.sampleId,
       i1s := if e.code == 'I' then c.i1s + [e.arg] else c.i1s,
       r1s := if e.code == 'R' then c.r1s + [e.arg] else c.r1s,
       r2s := if e.code == 'r' then c.r2s + [e.arg] else c.r2s,
       whiteListFile := if e.code == 'w' then e.arg else c.whiteListFile,
       outputFormat := if e.code == 'F' then e.arg else c.outputFormat,
       verboseFlag := c.verboseFlag || e.code == 'v')
  }

  /** The whole option loop of the slide-seq reader. */
  function Parse(c: SlideseqConfig, evs: seq<OptionEvent>): Parsed<SlideseqConfig> {
    Fold(c, evs, Kind, Step)
  }

  /** The scalar options hold the value of their last occurrence; the
      verbose flag is set by any `-v`. */
  lemma {:induction false} ParseScalars(c: SlideseqConfig, evs: seq<OptionEvent>)
    requires AllHandled(evs, Kind)
    ensures var r := Parse(c, evs).config;
      && r.bamSize == LastReal(evs, 'B', c.bamSize)
      && r.readStructure == LastArg(evs, 'S', c.readStructure)
      && r.sampleId == LastArg(evs, 's', c.sampleId)
      && r.whiteListFile == LastArg(evs, 'w', c.whiteListFile)
      && r.outputFormat == LastArg(evs, 'F', c.outputFormat)
      && r.verboseFlag == (c.verboseFlag || Occurs(evs, 'v'))
    decreases |evs|
  {
    if evs != [] {
      FoldLast(c, evs, Kind, Step);
      ParseScalars(c, evs[..|evs| - 1]);
    }
  }

  /** The three file lists get the arguments of their options appended in
      stream order. */
  lemma {:induction false} ParseLists(c: SlideseqConfig, evs: seq<OptionEvent>)
    requires AllHandled(evs, Kind)
    ensures var r := Parse(c, evs).config;
      && r.i1s == c.i1s + ArgsOf(evs, {'I'})
      && r.r1s == c.r1s + ArgsOf(evs, {'R'})
      && r.r2s == c.r2s + ArgsOf(evs, {'r'})
    decreases |evs|
  {
    if evs != [] {
      var n := |evs| - 1;
      FoldLast(c, evs, Kind, Step);
      ParseLists(c, evs[..n]);
      ArgsOfSnoc(c.i1s, evs, {'I'});
      ArgsOfSnoc(c.r1s, evs, {'R'});
      ArgsOfSnoc(c.r2s, evs, {'r'});
    }
  }

  /** When the loop runs to the end: every scalar option holds its last
      value, every file list has its arguments appended in order, and no
      other field changes. */
  lemma ParseResult(c: SlideseqConfig, evs: seq<OptionEvent>)
    requires AllHandled(evs, Kind)
    ensures Parse(c, evs).stop == EndOfOptions
    ensures var r := Parse(c, evs).config;
      && r.bamSize == LastReal(evs, 'B', c.bamSize)
      && r.readStructure == LastArg(evs, 'S', c.readStructure)
      && r.sampleId == LastArg(evs, 's', c.sampleId)
      && r.i1s == c.i1s + ArgsOf(evs, {'I'})
      && r.r1s == c.r1s + ArgsOf(evs, {'R'})
      && r.r2s == c.r2s + ArgsOf(evs, {'r'})
      && r.whiteListFile == LastArg(evs, 'w', c.whiteListFile)
      && r.outputFormat == LastArg(evs, 'F', c.outputFormat)
      && r.verboseFlag == (c.verboseFlag || Occurs(evs, 'v'))
  {
    FoldEndsIffAllHandled(c, evs, Kind, Step);
    ParseScalars(c, evs);
    ParseLists(c, evs);
  }

  // ---------------------------------------------------------------------
  // The checks after the option loop.

  /** Whether the check that reports `e` fails on `c`. The barcode and UMI
      length checks belong to the other FASTQ reader and never fail here. */
  predicate Violates(c: SlideseqConfig, e: FastqError) {
    match e
    case NoReadStructure => |c.readStructure| == 0
    case NonPositiveBarcodeLength => false
    case NonPositiveUmiLength => false
    case _ => ViolatesCommon(e, |c.i1s|, |c.r1s|, |c.r2s|, c.bamSize, c.sampleId, c.outputFormat)
  }

  /** `errors` lists every failing check once, in the order the checks run,
      and nothing else. */
  ghost predicate Reports(errors: seq<FastqError>, c: SlideseqConfig) {
    StrictlyRanked(errors) && forall e :: e in errors <==> Violates(c, e)
  }

  /** The report on a record is unique. */
  lemma ReportIsUnique(a: seq<FastqError>, b: seq<FastqError>, c: SlideseqConfig)
    requires Reports(a, c) && Reports(b, c)
    ensures a == b
  {
    StrictlyRankedUnique(a, b);
  }

  /** The report is empty exactly when the record satisfies every rule: equal
      non-zero numbers of R1 and R2 files, no I1 files or one per R1 file, a
      positive bam size, a read structure, a sample id, and an output format
      of FASTQ or BAM. */
  lemma PassesIff(errors: seq<FastqError>, c: SlideseqConfig)
    requires Reports(errors, c)
    ensures errors == [] <==>
      && |c.r1s| == |c.r2s| && |c.r1s| >= 1
      && (|c.i1s| == 0 || |c.i1s| == |c.r1s|)
      && c.bamSize > 0.0
      && c.readStructure != ""
      && c.sampleId != ""
      && (c.outputFormat == "FASTQ" || c.outputFormat == "BAM")
  {
    if errors == [] {
      forall e | Rank(e) <= 2
        ensures !ViolatesCommon(e, |c.i1s|, |c.r1s|, |c.r2s|, c.bamSize, c.sampleId, c.outputFormat)
      {
        assert !Violates(c, e);
      }
      FileCountRules(|c.i1s|, |c.r1s|, |c.r2s|, c.bamSize, c.sampleId, c.outputFormat);
      assert !Violates(c, NonPositiveBamSize) && !Violates(c, NoReadStructure);
      assert !Violates(c, NoSampleId) && !Violates(c, BadOutputFormat);
    } else {
      assert Violates(c, errors[0]);
    }
  }

  /** The white-list file is never looked at by the checks. */
  lemma WhiteListNotChecked(c: SlideseqConfig, w: string, e: FastqError)
    ensures Violates(c.(whiteListFile := w), e) == Violates(c, e)
  {
  }

  /** A record with nothing but the defaults fails four checks, in order:
      no R1 file, no read structure, no sample id, no output format. */
  lemma DefaultsReported(errors: seq<FastqError>)
    requires Reports(errors, Defaults())
    ensures errors == [NoR1, NoReadStructure, NoSampleId, BadOutputFormat]
  {
    var expected := [NoR1, NoReadStructure, NoSampleId, BadOutputFormat];
    assert Reports(expected, Defaults()) by {
      forall e ensures e in expected <==> Violates(Defaults(), e) {
        if e.UnequalR1R2? {
          assert !Violates(Defaults(), e);
        }
      }
    }
    ReportIsUnique(errors, expected, Defaults());
  }

  /** An error that `c` triggers is the one its check reports. */
  lemma ViolationIsChecked(c: SlideseqConfig, x: FastqError)
    requires Violates(c, x)
    ensures Rank(x) < CheckCount && x == CheckedAt(Rank(x), |c.r1s|, |c.r2s|)
  {
  }

  /** Whether the check at position `k` fails on `c`: the conditions the
      reader tests, in its order. */
  predicate Fails(c: SlideseqConfig, k: nat) {
    match k
    case 0 => |c.r1s| != |c.r2s|
    case 1 => |c.r1s| == 0
    case 2 => |c.i1s| != |c.r1s| && |c.i1s| != 0
    case 3 => c.bamSize <= 0.0
    case 4 => |c.readStructure| == 0
    case 5 => |c.sampleId| == 0
    case 6 => c.outputFormat != "FASTQ" && c.outputFormat != "BAM"
    case _ => false
  }

  /** The check at position `k` fails exactly when the error it reports is a
      violated rule. */
  lemma FailsIffViolates(c: SlideseqConfig, k: nat)
    requires k < CheckCount
    ensures Fails(c, k) <==> Violates(c, CheckedAt(k, |c.r1s|, |c.r2s|))
  {
  }

  /** What the checks of rank below `k` report, one after the other. */
  function ReportBelow(c: SlideseqConfig, k: nat): seq<FastqError>
    requires k <= CheckCount
  {
    if k == 0 then []
    else if Fails(c, k - 1) then ReportBelow(c, k - 1) + [CheckedAt(k - 1, |c.r1s|, |c.r2s|)]
    else ReportBelow(c, k - 1)
  }

  /** What all the checks report on `c`. */
  function Report(c: SlideseqConfig): seq<FastqError> {
    ReportBelow(c, CheckCount)
  }

  /** The checks below rank `k` report exactly the violated rules of rank
      below `k`, each once, in check order. */
  lemma {:induction false} ReportBelowSound(c: SlideseqConfig, k: nat)
    requires k <= CheckCount
    ensures StrictlyRanked(ReportBelow(c, k))
    ensures forall x :: x in ReportBelow(c, k) <==> Violates(c, x) && Rank(x) < k
  {
    if k > 0 {
      var e := CheckedAt(k - 1, |c.r1s|, |c.r2s|);
      var before := ReportBelow(c, k - 1);
      ReportBelowSound(c, k - 1);
      FailsIffViolates(c, k - 1);
      if Violates(c, e) {
        AppendRanked(before, e);
      }
      forall x | Violates(c, x) && Rank(x) == k - 1 ensures x == e {
        ViolationIsChecked(c, x);
      }
    }
  }

  /** Running the checks in order reports exactly the violated rules. */
  lemma ReportIsReport(c: SlideseqConfig)
    ensures Reports(Report(c), c)
  {
    ReportBelowSound(c, CheckCount);
    forall x ensures Rank(x) < CheckCount {
      RankBelowCheckCount(x);
    }
  }

  // ---------------------------------------------------------------------
  // The record the reader fills in place, and the reader itself.

  class SlideseqOptions {
    var bamSize: real
    var readStructure: string
    var sampleId: string
    var i1s: seq<string>
    var r1s: seq<string>
    var r2s: seq<string>
    var whiteListFile: string
    var outputFormat: string
    var verboseFlag: bool

    function Value(): SlideseqConfig
      reads this
    {
      SlideseqConfig(bamSize, readStructure, sampleId, i1s, r1s, r2s,
                     whiteListFile, outputFormat, verboseFlag)
    }

    constructor ()
      ensures Value() == Defaults()
    {
      bamSize, readStructure, sampleId := 1.0, "", "";
      i1s, r1s, r2s := [], [], [];
      whiteListFile, outputFormat, verboseFlag := "", "", false;
    }

    /** The state-changing `case`s of the option `switch`. */
    method Apply(e: OptionEvent)
      modifies this
      ensures bamSize == if e.code == 'B' then e.argReal else old(bamSize)
      ensures readStructure == if e.code == 'S' then e.arg else old(readStructure)
      ensures sampleId == if e.code == 's' then e.arg else old(sampleId)
      ensures i1s == if e.code == 'I' then old(i1s) + [e.arg] else old(i1s)
      ensures r1s == if e.code == 'R' then old(r1s) + [e.arg] else old(r1s)
      ensures r2s == if e.code == 'r' then old(r2s) + [e.arg] else old(r2s)
      ensures whiteListFile == if e.code == 'w' then e.arg else old(whiteListFile)
      ensures outputFormat == if e.code == 'F' then e.arg else old(outputFormat)
      ensures verboseFlag == (old(verboseFlag) || e.code == 'v')
    {
      match e.code {
        case 'v' => verboseFlag := true;
        case 'B' => bamSize := e.argReal;
        case 'S' => readStructure := e.arg;
        case 's' => sampleId := e.arg;
        case 'I' => i1s := i1s + [e.arg];
        case 'R' => r1s := r1s + [e.arg];
        case 'r' => r2s := r2s + [e.arg];
        case 'w' => whiteListFile := e.arg;
        case 'F' => outputFormat := e.arg;
        case _ =>  // `case 0` prints the option name only
      }
    }

    /** The checks after the option loop: every check runs, each failure is
        reported in turn, and the reader is to exit with an error exactly
        when some check failed. */
    method Check() returns (errors: seq<FastqError>, exitWithError: bool)
      ensures errors == Report(Value())
      ensures Reports(errors, Value())
      ensures exitWithError <==> |errors| > 0
    {
      ghost var c := Value();
      errors, exitWithError := [], false;
      if |r1s| != |r2s| {
        errors, exitWithError := errors + [UnequalR1R2(|r1s|, |r2s|)], true;
      }
      assert errors == ReportBelow(c, 1);
      if |r1s| == 0 {
        errors, exitWithError := errors + [NoR1], true;
      }
      assert errors == ReportBelow(c, 2);
      if |i1s| != |r1s| && |i1s| != 0 {
        errors, exitWithError := errors + [I1CountMismatch], true;
      }
      assert errors == ReportBelow(c, 3);
      if bamSize <= 0.0 {
        errors, exitWithError := errors + [NonPositiveBamSize], true;
      }
      assert errors == ReportBelow(c, 4);
      if |readStructure| == 0 {
        errors, exitWithError := errors + [NoReadStructure], true;
      }
      assert errors == ReportBelow(c, 5);
      if |sampleId| == 0 {
        errors, exitWithError := errors + [NoSampleId], true;
      }
      assert errors == ReportBelow(c, 6);
      if outputFormat != "FASTQ" && outputFormat != "BAM" {
        errors, exitWithError := errors + [BadOutputFormat], true;
      }
      assert errors == ReportBelow(c, 7);
      // the barcode and UMI length checks are not part of this reader
      assert errors == ReportBelow(c, 9);
      ReportIsReport(c);
    }
  }

  /** `read_options_fastq_slideseq`: run the option loop over `events`,
      updating `options` in place, then run every check. `listed` names the
      file lists the verbose listing prints (R1 and R2 only); that listing
      tests a local flag that nothing sets (`--verbose` sets the record's
      flag instead), so it never prints anything. */
  method ReadOptionsFastqSlideseq(options: SlideseqOptions, events: seq<OptionEvent>)
    returns (status: FastqStatus, listed: seq<string>)
    modifies options
    ensures var p := Parse(old(options.Value()), events);
      && options.Value() == p.config
      && (p.stop == HelpRequested ==> status == ReturnedAfterHelp)
      && (p.stop == UnexpectedOption ==> status == Aborted)
      && (p.stop == EndOfOptions ==>
            (status == Returned <==> Reports([], p.config))
            && (status != Returned ==> status.ErrorExit? && status.errors != [] && Reports(status.errors, p.config)))
    ensures listed == []
  {
    var verboseFlag := false;
    listed := [];
    var i := 0;
    while i < |events|
      invariant 0 <= i <= |events|
      invariant Parse(old(options.Value()), events) == Parse(options.Value(), events[i..])
    {
      var e := events[i];
      assert events[i..][0] == e && events[i..][1..] == events[i + 1..];
      match Kind(e.code) {
        case Help =>  // `case '?'` and `case 'h'`: usage text, then return without any check
          return ReturnedAfterHelp, listed;
        case Unknown =>  // `default`: abort()
          return Aborted, listed;
        case Handled =>
          ghost var before := options.Value();
          options.Apply(e);
          assert options.Value() == Step(before, e);
      }
      i := i + 1;
    }
    assert events[|events|..] == [];
    var errors, exitWithError := options.Check();
    var nonEmpty := NonEmptyLists([("R1", options.r1s), ("R2", options.r2s)]);
    if verboseFlag {
      listed := nonEmpty;
    }
    if exitWithError {
      assert errors[0] in errors;
      return ErrorExit(errors), listed;
    }
    return Returned, listed;
  }
}
