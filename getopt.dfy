/**
 * The option stream that `getopt_long` hands to the three option readers,
 * and the left fold that each reader's `while`/`switch` loop performs over it.
 *
 * `getopt_long` itself (argument permutation, long-name matching, detection
 * of a missing argument) is not part of this model: a reader sees only the
 * sequence of events it returns.
 */
module Getopt {

  datatype Option<T> = None | Some(value: T)

  /** One value returned by `getopt_long`: the option character, `optarg`
      (empty for an option without an argument), and `atoi(optarg)` and
      `atof(optarg)` as the reader would compute them. */
  datatype OptionEvent = OptionEvent(code: char, arg: string, argInt: int, argReal: real)

  /** How a reader's `switch` treats an option character. */
  datatype EventKind =
    | Handled  // a `case` that updates the options record (or only prints) and breaks
    | Help     // `case '?'` and `case 'h'`: print the usage text and leave the loop
    | Unknown  // `default`: abort()

  /** Why the option loop ended. */
  datatype Stop = EndOfOptions | HelpRequested | UnexpectedOption

  datatype Parsed<C> = Parsed(config: C, stop: Stop)

  predicate AllHandled(evs: seq<OptionEvent>, kind: char -> EventKind) {
    forall j :: 0 <= j < |evs| ==> kind(evs[j].code) == Handled
  }

  /** The option loop: apply `step` to every event in order, until an event
      that is not `Handled` ends the loop. */
  function Fold<C>(c: C, evs: seq<OptionEvent>, kind: char -> EventKind, step: (C, OptionEvent) -> C): Parsed<C>
    decreases |evs|
  {
    if evs == [] then Parsed(c, EndOfOptions)
    else match kind(evs[0].code)
      case Handled => Fold(step(c, evs[0]), evs[1..], kind, step)
      case Help => Parsed(c, HelpRequested)
      case Unknown => Parsed(c, UnexpectedOption)
  }

  /** Handling one more event after a run of handled events is one more step. */
  lemma {:induction false} FoldSnoc<C>(c: C, evs: seq<OptionEvent>, e: OptionEvent,
                                       kind: char -> EventKind, step: (C, OptionEvent) -> C)
    requires AllHandled(evs, kind) && kind(e.code) == Handled
    ensures Fold(c, evs + [e], kind, step) == Parsed(step(Fold(c, evs, kind, step).config, e), EndOfOptions)
    decreases |evs|
  {
    if evs == [] {
      assert [e][1..] == [];
    } else {
      assert (evs + [e])[0] == evs[0];
      assert (evs + [e])[1..] == evs[1..] + [e];
      FoldSnoc(step(c, evs[0]), evs[1..], e, kind, step);
    }
  }

  /** A non-empty run of handled events is the run before its last event,
      then that event. */
  lemma FoldLast<C>(c: C, evs: seq<OptionEvent>, kind: char -> EventKind, step: (C, OptionEvent) -> C)
    requires evs != [] && AllHandled(evs, kind)
    ensures AllHandled(evs[..|evs| - 1], kind)
    ensures Fold(c, evs, kind, step)
         == Parsed(step(Fold(c, evs[..|evs| - 1], kind, step).config, evs[|evs| - 1]), EndOfOptions)
  {
    var n := |evs| - 1;
    assert evs == evs[..n] + [evs[n]];
    assert AllHandled(evs[..n], kind) by {
      forall j | 0 <= j < n ensures kind(evs[..n][j].code) == Handled {
        assert evs[..n][j] == evs[j];
      }
    }
    FoldSnoc(c, evs[..n], evs[n], kind, step);
  }

  /** The loop runs to the end of the stream exactly when every event is handled. */
  lemma {:induction false} FoldEndsIffAllHandled<C>(c: C, evs: seq<OptionEvent>,
                                                    kind: char -> EventKind, step: (C, OptionEvent) -> C)
    ensures Fold(c, evs, kind, step).stop == EndOfOptions <==> AllHandled(evs, kind)
    decreases |evs|
  {
    if evs != [] && kind(evs[0].code) == Handled {
      FoldEndsIffAllHandled(step(c, evs[0]), evs[1..], kind, step);
      if AllHandled(evs[1..], kind) {
        forall j | 0 <= j < |evs| ensures kind(evs[j].code) == Handled {
          if j > 0 { assert evs[j] == evs[1..][j - 1]; }
        }
      }
    }
  }

  /** The first event that is not handled ends the loop: the record is what the
      events before it made of it, and nothing after it is looked at. */
  lemma {:induction false} FoldStopsAtFirstUnhandled<C>(c: C, evs: seq<OptionEvent>, k: nat,
                                                        kind: char -> EventKind, step: (C, OptionEvent) -> C)
    requires k < |evs| && kind(evs[k].code) != Handled && AllHandled(evs[..k], kind)
    ensures Fold(c, evs, kind, step)
         == Parsed(Fold(c, evs[..k], kind, step).config,
                   if kind(evs[k].code) == Help then HelpRequested else UnexpectedOption)
    decreases k
  {
    if k > 0 {
      assert evs[..k][0] == evs[0];
      assert kind(evs[0].code) == Handled;
      var rest := evs[1..][..k - 1];
      assert rest == evs[..k][1..];
      assert AllHandled(rest, kind) by {
        forall j | 0 <= j < k - 1 ensures kind(rest[j].code) == Handled {
          assert rest[j] == evs[..k][j + 1];
        }
      }
      FoldStopsAtFirstUnhandled(step(c, evs[0]), evs[1..], k - 1, kind, step);
    }
  }

  /** From a handled event on, the loop takes one step and goes on with the rest. */
  lemma FoldDrop<C>(c: C, evs: seq<OptionEvent>, i: nat, kind: char -> EventKind, step: (C, OptionEvent) -> C)
    requires i < |evs| && kind(evs[i].code) == Handled
    ensures Fold(c, evs[i..], kind, step) == Fold(step(c, evs[i]), evs[i + 1..], kind, step)
  {
    assert evs[i..][0] == evs[i] && evs[i..][1..] == evs[i + 1..];
  }

  /** Seven handled events are seven steps. */
  lemma FoldSeven<C>(c: C, e1: OptionEvent, e2: OptionEvent, e3: OptionEvent, e4: OptionEvent,
                     e5: OptionEvent, e6: OptionEvent, e7: OptionEvent,
                     kind: char -> EventKind, step: (C, OptionEvent) -> C)
    requires kind(e1.code) == Handled && kind(e2.code) == Handled && kind(e3.code) == Handled
    requires kind(e4.code) == Handled && kind(e5.code) == Handled && kind(e6.code) == Handled
    requires kind(e7.code) == Handled
    ensures Fold(c, [e1, e2, e3, e4, e5, e6, e7], kind, step)
         == Parsed(step(step(step(step(step(step(step(c, e1), e2), e3), e4), e5), e6), e7), EndOfOptions)
  {
    var evs := [e1, e2, e3, e4, e5, e6, e7];
    var c1 := step(c, e1);
    var c2 := step(c1, e2);
    var c3 := step(c2, e3);
    var c4 := step(c3, e4);
    var c5 := step(c4, e5);
    var c6 := step(c5, e6);
    assert evs[0..] == evs;
    FoldDrop(c, evs, 0, kind, step);
    FoldDrop(c1, evs, 1, kind, step);
    FoldDrop(c2, evs, 2, kind, step);
    FoldDrop(c3, evs, 3, kind, step);
    FoldDrop(c4, evs, 4, kind, step);
    FoldDrop(c5, evs, 5, kind, step);
    FoldDrop(c6, evs, 6, kind, step);
    assert evs[7..] == [];
  }

  /** The last event of `evs` whose option character is `code`, if any. */
  function LastEvent(evs: seq<OptionEvent>, code: char): Option<OptionEvent>
    decreases |evs|
  {
    if evs == [] then None
    else if evs[|evs| - 1].code == code then Some(evs[|evs| - 1])
    else LastEvent(evs[..|evs| - 1], code)
  }

  /** `LastEvent` is the event at the last position holding `code`, and it is
      absent exactly when no position holds `code`. */
  lemma {:induction false} LastEventIsLast(evs: seq<OptionEvent>, code: char)
    ensures LastEvent(evs, code).None? <==> forall j :: 0 <= j < |evs| ==> evs[j].code != code
    ensures LastEvent(evs, code).Some? ==>
      exists k :: 0 <= k < |evs| && evs[k] == LastEvent(evs, code).value
               && evs[k].code == code
               && forall j :: k < j < |evs| ==> evs[j].code != code
    decreases |evs|
  {
    if evs != [] {
      var n := |evs| - 1;
      if evs[n].code != code {
        LastEventIsLast(evs[..n], code);
        assert forall j :: 0 <= j < n ==> evs[..n][j] == evs[j];
      }
    }
  }

  /** The argument of the last `code` option, or `default` when there is none. */
  function LastArg(evs: seq<OptionEvent>, code: char, default: string): string {
    match LastEvent(evs, code)
    case Some(e) => e.arg
    case None => default
  }

  /** `atoi` of the argument of the last `code` option, or `default`. */
  function LastInt(evs: seq<OptionEvent>, code: char, default: int): int {
    match LastEvent(evs, code)
    case Some(e) => e.argInt
    case None => default
  }

  /** `atof` of the argument of the last `code` option, or `default`. */
  function LastReal(evs: seq<OptionEvent>, code: char, default: real): real {
    match LastEvent(evs, code)
    case Some(e) => e.argReal
    case None => default
  }

  /** Whether some event has option character `code`. */
  predicate Occurs(evs: seq<OptionEvent>, code: char) {
    LastEvent(evs, code).Some?
  }

  /** The arguments of the events whose option character is in `codes`, in stream order. */
  function ArgsOf(evs: seq<OptionEvent>, codes: set<char>): seq<string>
    decreases |evs|
  {
    if evs == [] then []
    else ArgsOf(evs[..|evs| - 1], codes)
         + (if evs[|evs| - 1].code in codes then [evs[|evs| - 1].arg] else [])
  }

  /** The arguments of a non-empty stream are those of all but its last
      event, then the last event's argument when its code is in `codes`. */
  lemma ArgsOfLast(evs: seq<OptionEvent>, codes: set<char>)
    requires evs != []
    ensures var n := |evs| - 1;
      ArgsOf(evs, codes)
      == if evs[n].code in codes then ArgsOf(evs[..n], codes) + [evs[n].arg] else ArgsOf(evs[..n], codes)
  {
    var n := |evs| - 1;
    if evs[n].code !in codes {
      assert ArgsOf(evs[..n], codes) + [] == ArgsOf(evs[..n], codes);
    }
  }

  /** The same after a prefix `pre`: appending to a list the arguments of a
      stream appends them one event at a time. */
  lemma ArgsOfSnoc(pre: seq<string>, evs: seq<OptionEvent>, codes: set<char>)
    requires evs != []
    ensures var n := |evs| - 1;
      pre + ArgsOf(evs, codes)
      == if evs[n].code in codes then (pre + ArgsOf(evs[..n], codes)) + [evs[n].arg] else pre + ArgsOf(evs[..n], codes)
  {
    var n := |evs| - 1;
    ArgsOfLast(evs, codes);
    if evs[n].code in codes {
      assert pre + (ArgsOf(evs[..n], codes) + [evs[n].arg]) == (pre + ArgsOf(evs[..n], codes)) + [evs[n].arg];
    }
  }

  /** Every collected argument comes from an event with one of the codes, and
      every such event contributes its argument. */
  lemma {:induction false} ArgsOfElements(evs: seq<OptionEvent>, codes: set<char>)
    ensures forall s :: s in ArgsOf(evs, codes) <==>
              exists j :: 0 <= j < |evs| && evs[j].code in codes && evs[j].arg == s
    ensures |ArgsOf(evs, codes)| <= |evs|
    decreases |evs|
  {
    if evs != [] {
      var n := |evs| - 1;
      ArgsOfElements(evs[..n], codes);
      assert forall j :: 0 <= j < n ==> evs[..n][j] == evs[j];
      forall s | s in ArgsOf(evs, codes)
        ensures exists j :: 0 <= j < |evs| && evs[j].code in codes && evs[j].arg == s
      {
        if s !in ArgsOf(evs[..n], codes) {
          assert evs[n].code in codes && evs[n].arg == s;
        }
      }
      forall s | exists j :: 0 <= j < |evs| && evs[j].code in codes && evs[j].arg == s
        ensures s in ArgsOf(evs, codes)
      {
        var j :| 0 <= j < |evs| && evs[j].code in codes && evs[j].arg == s;
        if j < n {
          assert evs[..n][j] == evs[j];
        }
      }
    }
  }
}
