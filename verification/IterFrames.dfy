/** Decoding with retry and fallback to software (backend/app/hardware/ffmpeg.py:84-96, 1282-1450,
    1521-1568). What each attempt at decoding would produce is a parameter. */
module IterFrames {
  import opened Options

  datatype Decoder = Vaapi | Software

  /** `media`: raised by FFmpeg, as opposed to a cancellation; the other two classify its message. */
  datatype Error = Error(media: bool, emptyWindow: bool, transient: bool)

  type Frame = (real, seq<bv8>)

  /** One decode attempt: the decoder it resolved to, what it yields, and how it ends. */
  datatype Attempt = Attempt(decoder: Decoder, frames: seq<Frame>, error: Option<Error>)

  const HARDWARE_TRIES := 3
  const HWACCEL_REFUSED_MAX := 512
  const HWACCEL_PROVEN_MAX := 512

  /** How many frames the consumer takes before it walks away; at least one. */
  type Appetite = n: Option<nat> | n.Some? ==> n.value > 0 witness None

  datatype Ending = Completed | Abandoned | Raised(error: Error)

  // ----- The specification --------------------------------------------------------------

  predicate WalksAway(a: Attempt, appetite: Appetite) {
    appetite.Some? && appetite.value <= |a.frames|
  }

  function Delivered(a: Attempt, appetite: Appetite): (frames: seq<Frame>)
    ensures frames <= a.frames
  {
    if WalksAway(a, appetite) then a.frames[..appetite.value] else a.frames
  }

  function EndingOf(a: Attempt, appetite: Appetite): Ending {
    if WalksAway(a, appetite) then Abandoned
    else if a.error.Some? then Raised(a.error.value)
    else Completed
  }

  /** A hardware attempt that failed before anything reached the consumer, for a reason that software
      might not share. */
  predicate MayBeReplaced(a: Attempt) {
    && a.frames == [] && a.error.Some? && a.error.value.media
    && a.decoder == Vaapi && !a.error.value.emptyWindow
  }

  predicate IsRetried(a: Attempt, i: nat) {
    MayBeReplaced(a) && a.error.value.transient && i < HARDWARE_TRIES - 1
  }

  /** What each turn of the loop runs: a file known to fail on hardware is pinned to software. */
  function Tries(onHardware: bool, hardware: nat -> Attempt, software: Attempt): nat -> Attempt {
    (i: nat) => if onHardware then hardware(i) else software
  }

  /** The attempts launched from the `i`-th on. */
  function Launched(tries: nat -> Attempt, software: Attempt, i: nat): (launched: seq<Attempt>)
    decreases HARDWARE_TRIES - i
  {
    if IsRetried(tries(i), i) then [tries(i)] + Launched(tries, software, i + 1)
    else if MayBeReplaced(tries(i)) then [tries(i), software]
    else [tries(i)]
  }

  /** Whether software is fallen back to, and after which failure. */
  function FallsBack(tries: nat -> Attempt, i: nat): (failure: Option<Error>)
    decreases HARDWARE_TRIES - i
  {
    if IsRetried(tries(i), i) then FallsBack(tries, i + 1)
    else if MayBeReplaced(tries(i)) then tries(i).error
    else None
  }

  // ----- What the consumer can rely on --------------------------------------------------

  /** At most three attempts prefer hardware and at most one more runs in software; every attempt
      before the last one delivered nothing, so no frame is ever repeated or spliced in. */
  lemma {:induction false} OnlyTheLastAttemptDelivers(tries: nat -> Attempt, software: Attempt, i: nat)
    requires i < HARDWARE_TRIES
    ensures var launched := Launched(tries, software, i);
            && 0 < |launched| <= HARDWARE_TRIES - i + 1
            && (forall k :: 0 <= k < |launched| - 1 ==> launched[k].frames == [] && launched[k].decoder == Vaapi)
            && (FallsBack(tries, i).None? ==>
                  |launched| <= HARDWARE_TRIES - i && launched[|launched| - 1] == tries(i + |launched| - 1))
            && (FallsBack(tries, i).Some? ==>
                  |launched| >= 2 && launched[|launched| - 1] == software
                  && launched[|launched| - 2].error == FallsBack(tries, i))
    decreases HARDWARE_TRIES - i
  {
    if IsRetried(tries(i), i) {
      OnlyTheLastAttemptDelivers(tries, software, i + 1);
      assert Launched(tries, software, i)[1..] == Launched(tries, software, i + 1);
    }
  }

  /** The attempt failed on the hardware before any frame, and not for an empty window. */
  predicate IsLost(a: Attempt, transient: bool) {
    a.decoder == Vaapi && |a.frames| == 0 && a.error == Some(Error(true, false, transient))
  }

  /** The attempts before the `n`-th were lost to passing errors, and so the hardware was tried again. */
  ghost predicate LastTry(tries: nat -> Attempt, i: nat, n: nat) {
    forall k :: i <= k < n ==> IsLost(tries(k), true)
  }

  /** Software is fallen back to exactly when the hardware was lost to an error that would not pass, or three
      times to one that might. */
  lemma {:induction false} SoftwareIsTheLastResort(tries: nat -> Attempt, i: nat)
    requires i < 3
    ensures FallsBack(tries, i).Some? <==>
              exists n :: i <= n < 3 && LastTry(tries, i, n)
                          && (IsLost(tries(n), false) || (n == 2 && IsLost(tries(n), true)))
    decreases HARDWARE_TRIES - i
  {
    assert forall a :: MayBeReplaced(a) <==> IsLost(a, true) || IsLost(a, false) by { LostMayBeReplaced(); }
    if IsRetried(tries(i), i) {
      SoftwareIsTheLastResort(tries, i + 1);
      if FallsBack(tries, i + 1).Some? {
        var n :| i + 1 <= n < 3 && LastTry(tries, i + 1, n)
                 && (IsLost(tries(n), false) || (n == 2 && IsLost(tries(n), true)));
        assert LastTry(tries, i, n);
      } else {
        assert forall n :: i < n && LastTry(tries, i, n) ==> LastTry(tries, i + 1, n);
      }
    } else {
      assert LastTry(tries, i, i);
      assert forall n :: i < n && LastTry(tries, i, n) ==> IsLost(tries(i), true);
    }
  }

  lemma LostMayBeReplaced()
    ensures forall a :: MayBeReplaced(a) <==> IsLost(a, true) || IsLost(a, false)
  {
    forall a: Attempt
      ensures MayBeReplaced(a) <==> IsLost(a, true) || IsLost(a, false)
    {
      if a.error.Some? {
        var e := a.error.value;
        assert e == Error(e.media, e.emptyWindow, e.transient);
      }
    }
  }

  /** The attempts run in turn, but for the last one when software was fallen back to. */
  lemma {:induction false} AttemptsRunInTurn(tries: nat -> Attempt, software: Attempt, i: nat, k: nat)
    requires i < HARDWARE_TRIES && k < |Launched(tries, software, i)|
    ensures k + 1 < |Launched(tries, software, i)| || FallsBack(tries, i).None? ==>
              Launched(tries, software, i)[k] == tries(i + k)
    decreases HARDWARE_TRIES - i
  {
    if IsRetried(tries(i), i) && k > 0 {
      AttemptsRunInTurn(tries, software, i + 1, k - 1);
    }
  }

  /** A file the hardware has refused, or a consumer that prefers software, has one attempt, in software; any
      other is tried on the hardware each time. */
  lemma RefusedRunsInSoftware(hardware: nat -> Attempt, software: Attempt)
    requires software.decoder == Software
    ensures Launched(Tries(false, hardware, software), software, 0) == [software]
    ensures forall i: nat :: Tries(true, hardware, software)(i) == hardware(i)
  {
  }

  /** The consumer gets all the frames there are, or as many as it wants if it leaves before the end; only
      then does it not see how the attempt ended. */
  lemma ConsumerGets(a: Attempt, appetite: Appetite)
    ensures var (wants, n) := (if appetite == None then |a.frames| + 1 else appetite.value, |a.frames|);
            && Delivered(a, appetite) == a.frames[..if wants < n then wants else n]
            && EndingOf(a, appetite) == (if wants <= n then Abandoned
                                         else if a.error == None then Completed else Raised(a.error.value))
  {
    assert a.frames[..|a.frames|] == a.frames;
  }

  lemma LaunchOneMore(before: seq<Attempt>, tries: nat -> Attempt, software: Attempt, i: nat)
    ensures before + Launched(tries, software, i)
         == (before + [tries(i)]) + if IsRetried(tries(i), i) then Launched(tries, software, i + 1)
                                    else if MayBeReplaced(tries(i)) then [software] else []
  {
  }

  // ----- What is remembered about each file ---------------------------------------------

  /** Files known to fail, and to work, on hardware. The proven set outranks the refused one. */
  class DecodeMemory {
    var refused: set<string>
    var proven: set<string>

    constructor ()
      ensures refused == {} && proven == {}
    {
      refused, proven := {}, {};
    }

    /** `_remember_hwaccel_success`. What is evicted is arbitrary. */
    method RememberSuccess(path: string)
      modifies `proven
      ensures proven <= old(proven) + {path}
      ensures path in old(proven) ==> proven == old(proven)
      ensures |old(proven)| < HWACCEL_PROVEN_MAX ==> proven == old(proven) + {path}
      ensures |old(proven)| <= HWACCEL_PROVEN_MAX ==> |proven| <= HWACCEL_PROVEN_MAX
    {
      if path in proven {
        return;
      }
      proven := proven + {path};
      proven := Trim(proven, HWACCEL_PROVEN_MAX);
    }

    /** `_remember_hwaccel_failure`. */
    method RememberFailure(path: string)
      modifies `refused
      ensures refused <= old(refused) + {path}
      ensures |refused| <= HWACCEL_REFUSED_MAX
      ensures |old(refused)| < HWACCEL_REFUSED_MAX ==> refused == old(refused) + {path}
    {
      refused := refused + {path};
      refused := Trim(refused, HWACCEL_REFUSED_MAX);
    }

    static method Trim(s: set<string>, most: nat) returns (kept: set<string>)
      ensures kept <= s && |kept| <= most
      ensures |s| <= most ==> kept == s
    {
      kept := s;
      while |kept| > most
        invariant kept <= s
        invariant |s| <= most ==> kept == s
      {
        var dropped :| dropped in kept;
        kept := kept - {dropped};
      }
    }

    /** The loop of attempts: a stream for the consumer, or the failure to fall back from. */
    method Attempts(path: string, tries: nat -> Attempt, ghost software: Attempt, appetite: Appetite)
        returns (received: seq<Frame>, ending: Ending, launched: seq<Attempt>, failure: Option<Error>)
      modifies `proven
      ensures failure == FallsBack(tries, 0)
      ensures launched + (if failure.Some? then [software] else []) == Launched(tries, software, 0)
      ensures launched != [] && proven <= old(proven) + {path}
      ensures path in old(proven) || failure.Some? ==> proven == old(proven)
      ensures failure.None? ==>
                && received == Delivered(launched[|launched| - 1], appetite)
                && ending == EndingOf(launched[|launched| - 1], appetite)
                && (path in proven && path !in old(proven) ==>
                      received != [] && launched[|launched| - 1].decoder == Vaapi)
                && (received != [] && launched[|launched| - 1].decoder == Vaapi && |old(proven)| < HWACCEL_PROVEN_MAX ==>
                      path in proven)
    {
      hide Launched;
      received, ending, launched, failure := [], Completed, [], None;
      var attempt := 0;
      while attempt < HARDWARE_TRIES
        invariant attempt < HARDWARE_TRIES && proven == old(proven) && failure.None?
        invariant launched + Launched(tries, software, attempt) == Launched(tries, software, 0)
        invariant FallsBack(tries, attempt) == FallsBack(tries, 0)
      {
        var a := tries(attempt);
        LaunchOneMore(launched, tries, software, attempt);
        launched := launched + [a];
        if WalksAway(a, appetite) || a.error.None? || a.frames != [] {
          received, ending := Delivered(a, appetite), EndingOf(a, appetite);
          if a.frames != [] && a.decoder != Software {
            RememberSuccess(path);
          }
          return;
        }
        var error := a.error.value;
        if !error.media || a.decoder == Software || error.emptyWindow {
          ending := Raised(error);
          return;
        }
        if error.transient && attempt < HARDWARE_TRIES - 1 {
          attempt := attempt + 1;
          continue;
        }
        failure := a.error;
        break;
      }
    }

    /** `iter_frames`, once the preferred decoder is known. */
    method Iterate(path: string, preferred: Decoder, hardware: nat -> Attempt, software: Attempt, appetite: Appetite)
        returns (received: seq<Frame>, ending: Ending, launched: seq<Attempt>)
      requires software.decoder == Software
      modifies this
      ensures var tries := Tries(preferred == Vaapi && path !in old(refused), hardware, software);
              && launched == Launched(tries, software, 0) && launched != []
              && received == Delivered(launched[|launched| - 1], appetite)
              && ending == EndingOf(launched[|launched| - 1], appetite)
              && (path in refused && path !in old(refused) ==>
                    FallsBack(tries, 0).Some? && !FallsBack(tries, 0).value.transient && path !in proven)
              && (path in proven && path !in old(proven) ==>
                    received != [] && launched[|launched| - 1].decoder == Vaapi)
              && (received != [] && launched[|launched| - 1].decoder == Vaapi && |old(proven)| < HWACCEL_PROVEN_MAX ==>
                    path in proven)
              && (path !in old(proven) && |old(refused)| < HWACCEL_REFUSED_MAX ==>
                    FallsBack(tries, 0).Some? && !FallsBack(tries, 0).value.transient ==> path in refused)
      ensures refused <= old(refused) + {path} && proven <= old(proven) + {path}
      ensures path in old(proven) ==> proven == old(proven) && refused == old(refused)
    {
      var resolved := if preferred == Vaapi && path in refused then Software else preferred;
      var tries := Tries(resolved == Vaapi, hardware, software);
      var failure: Option<Error>;
      received, ending, launched, failure := Attempts(path, tries, software, appetite);
      if failure.None? {
        return;
      }
      if path !in proven && !failure.value.transient {
        RememberFailure(path);
      }
      launched := launched + [software];
      received, ending := Delivered(software, appetite), EndingOf(software, appetite);
    }
  }
}
