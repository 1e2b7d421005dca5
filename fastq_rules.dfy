/**
 * What the two FASTQ option readers (`read_options_fastqprocess` and
 * `read_options_fastq_slideseq`) have in common: the errors their checks
 * report, the order in which the checks run, and the rules that both
 * commands apply. Unlike the tagsort reader, these readers run every check
 * and report every failure before they exit.
 */
module FastqRules {

  /** One failed check, in the order the checks run. */
  datatype FastqError =
    | UnequalR1R2(r1Count: nat, r2Count: nat) // |R1s| != |R2s|; the message shows both counts
    | NoR1                                    // no R1 file
    | I1CountMismatch                         // some I1 files, but not one per R1 file
    | NonPositiveBamSize                      // bam size (GB) not above zero
    | NoReadStructure                         // empty read structure (read-structure variant only)
    | NoSampleId                              // empty sample id
    | BadOutputFormat                         // output format other than "FASTQ" or "BAM"
    | NonPositiveBarcodeLength                // barcode length not above zero (fastqprocess only)
    | NonPositiveUmiLength                    // UMI length not above zero (fastqprocess only)

  /** The position of each check; both readers run their checks in this order. */
  function Rank(e: FastqError): nat {
    match e
    case UnequalR1R2(_, _) => 0
    case NoR1 => 1
    case I1CountMismatch => 2
    case NonPositiveBamSize => 3
    case NoReadStructure => 4
    case NoSampleId => 5
    case BadOutputFormat => 6
    case NonPositiveBarcodeLength => 7
    case NonPositiveUmiLength => 8
  }

  /** The errors appear in the order of their checks, each at most once. */
  predicate StrictlyRanked(errors: seq<FastqError>) {
    forall i, j :: 0 <= i < j < |errors| ==> Rank(errors[i]) < Rank(errors[j])
  }

  /** The six rules both FASTQ readers apply, on the counts of the three file
      lists and the three other fields they read. Every other error is not
      raised by these rules. */
  predicate ViolatesCommon(e: FastqError, i1Count: nat, r1Count: nat, r2Count: nat,
                           bamSize: real, sampleId: string, outputFormat: string) {
    match e
    case UnequalR1R2(r1, r2) => r1Count != r2Count && r1 == r1Count && r2 == r2Count
    case NoR1 => r1Count == 0
    case I1CountMismatch => i1Count != r1Count && i1Count != 0
    case NonPositiveBamSize => bamSize <= 0.0
    case NoSampleId => |sampleId| == 0
    case BadOutputFormat => outputFormat != "FASTQ" && outputFormat != "BAM"
    case _ => false
  }

  /** The file-count rules: the R1 and R2 lists have the same non-zero
      length, and the I1 list is either empty or as long as the R1 list. */
  lemma FileCountRules(i1Count: nat, r1Count: nat, r2Count: nat,
                       bamSize: real, sampleId: string, outputFormat: string)
    ensures (forall e :: Rank(e) <= 2 ==> !ViolatesCommon(e, i1Count, r1Count, r2Count, bamSize, sampleId, outputFormat))
        <==> r1Count == r2Count && r1Count >= 1 && (i1Count == 0 || i1Count == r1Count)
  {
    if r1Count != r2Count {
      assert ViolatesCommon(UnequalR1R2(r1Count, r2Count), i1Count, r1Count, r2Count, bamSize, sampleId, outputFormat);
    } else if r1Count == 0 {
      assert ViolatesCommon(NoR1, i1Count, r1Count, r2Count, bamSize, sampleId, outputFormat);
    } else if i1Count != 0 && i1Count != r1Count {
      assert ViolatesCommon(I1CountMismatch, i1Count, r1Count, r2Count, bamSize, sampleId, outputFormat);
    }
  }

  /** Two strictly ranked error lists that hold the same errors are the same
      list: a reader's report is determined by which checks fail. */
  lemma {:induction false} StrictlyRankedUnique(a: seq<FastqError>, b: seq<FastqError>)
    requires StrictlyRanked(a) && StrictlyRanked(b)
    requires forall e :: e in a <==> e in b
    ensures a == b
    decreases |a|
  {
    if a != [] && b != [] {
      SameHead(a, b);
      SameTail(a, b);
      TailRanked(a);
      TailRanked(b);
      StrictlyRankedUnique(a[1..], b[1..]);
      assert a == [a[0]] + a[1..] && b == [b[0]] + b[1..];
    } else {
      // one list is empty, so the other has no element either
      HeadIsElement(a);
      HeadIsElement(b);
    }
  }

  /** Both lists start with their error of least rank, which is the same. */
  lemma SameHead(a: seq<FastqError>, b: seq<FastqError>)
    requires StrictlyRanked(a) && StrictlyRanked(b) && a != [] && b != []
    requires forall e :: e in a <==> e in b
    ensures a[0] == b[0]
  {
    FirstHasLeastRank(a);
    FirstHasLeastRank(b);
    assert a[0] in b && b[0] in a;
    var i :| 0 <= i < |a| && a[i] == b[0];
    assert Rank(a[i]) == Rank(a[0]);
    assert i == 0;
  }

  /** With the same head, the tails hold the same errors. */
  lemma SameTail(a: seq<FastqError>, b: seq<FastqError>)
    requires StrictlyRanked(a) && StrictlyRanked(b) && a != [] && b != []
    requires forall e :: e in a <==> e in b
    requires a[0] == b[0]
    ensures forall e :: e in a[1..] <==> e in b[1..]
  {
    forall e | e in a[1..] ensures e in b[1..] {
      TailMember(a, b, e);
    }
    forall e | e in b[1..] ensures e in a[1..] {
      TailMember(b, a, e);
    }
  }

  lemma TailMember(a: seq<FastqError>, b: seq<FastqError>, e: FastqError)
    requires StrictlyRanked(a) && a != [] && b != []
    requires forall e :: e in a <==> e in b
    requires a[0] == b[0]
    requires e in a[1..]
    ensures e in b[1..]
  {
    var k :| 0 <= k < |a| - 1 && a[1..][k] == e;
    assert a[k + 1] == e;
    assert Rank(a[0]) < Rank(e);
    assert e in b;
    assert b == [b[0]] + b[1..];
  }

  /** The tail of a strictly ranked list is strictly ranked. */
  lemma TailRanked(errors: seq<FastqError>)
    requires StrictlyRanked(errors) && errors != []
    ensures StrictlyRanked(errors[1..])
  {
    forall i, j | 0 <= i < j < |errors| - 1 ensures Rank(errors[1..][i]) < Rank(errors[1..][j]) {
      assert errors[1..][i] == errors[i + 1] && errors[1..][j] == errors[j + 1];
    }
  }

  lemma HeadIsElement(errors: seq<FastqError>)
    ensures errors == [] || errors[0] in errors
  {
  }

  /** The first error of a strictly ranked list has the least rank in it. */
  lemma FirstHasLeastRank(errors: seq<FastqError>)
    requires StrictlyRanked(errors) && errors != []
    ensures forall e :: e in errors ==> Rank(errors[0]) <= Rank(e)
  {
    forall e | e in errors ensures Rank(errors[0]) <= Rank(e) {
      var k :| 0 <= k < |errors| && errors[k] == e;
      assert k == 0 || Rank(errors[0]) < Rank(errors[k]);
    }
  }

  /** Appending an error ranked after every earlier one keeps the list
      strictly ranked. */
  lemma AppendRanked(errors: seq<FastqError>, e: FastqError)
    requires StrictlyRanked(errors)
    requires forall x :: x in errors ==> Rank(x) < Rank(e)
    ensures StrictlyRanked(errors + [e])
  {
    forall i, j | 0 <= i < j < |errors| + 1 ensures Rank((errors + [e])[i]) < Rank((errors + [e])[j]) {
      if j == |errors| {
        assert (errors + [e])[i] == errors[i];
        assert errors[i] in errors;
      } else {
        assert (errors + [e])[i] == errors[i] && (errors + [e])[j] == errors[j];
      }
    }
  }

  /** The number of checks, over both readers. */
  const CheckCount: nat := 9

  /** The one error the check of rank `k` can report; only the count check
      carries data, the two list lengths. */
  function CheckedAt(k: nat, r1Count: nat, r2Count: nat): (e: FastqError)
    requires k < CheckCount
    ensures Rank(e) == k
  {
    match k
    case 0 => UnequalR1R2(r1Count, r2Count)
    case 1 => NoR1
    case 2 => I1CountMismatch
    case 3 => NonPositiveBamSize
    case 4 => NoReadStructure
    case 5 => NoSampleId
    case 6 => BadOutputFormat
    case 7 => NonPositiveBarcodeLength
    case _ => NonPositiveUmiLength
  }

  lemma RankBelowCheckCount(x: FastqError)
    ensures Rank(x) < CheckCount
  {
  }

  /** The labels of the non-empty file lists, in order: what the verbose
      listing would hand to `_print_file_info`. */
  function NonEmptyLists(lists: seq<(string, seq<string>)>): (labels: seq<string>)
    ensures forall l :: l in labels <==> exists i :: 0 <= i < |lists| && lists[i].0 == l && lists[i].1 != []
  {
    if lists == [] then []
    else (if lists[0].1 != [] then [lists[0].0] else []) + NonEmptyLists(lists[1..])
  }

  /** How a FASTQ option reader ends. */
  datatype FastqStatus =
    | Returned                              // every check passed
    | ReturnedAfterHelp                     // usage text printed; returns without any check
    | ErrorExit(errors: seq<FastqError>)    // every failed check reported, exit(1)
    | Aborted                               // abort() on an option character the switch does not know
}
