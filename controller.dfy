/**
 * The program's move controller as a state machine driven by events: the
 * start of a move with the one-shot height reading, each height
 * notification, each poll of the stop flag by the subscription loop, the
 * movement timeout, and the disconnect callback. Characteristic writes are
 * appended to `log` in the order they are issued.
 */
module Controller {
  import opened Wrappers
  import opened Wire
  import opened Movement

  /** How a move ended. */
  datatype Ending =
    | AlreadyAtTarget
      /** The subscription loop saw the stop flag and unsubscribed. */
    | Stopped
      /** The movement timeout cancelled the move and unsubscribed. */
    | TimedOut
      /** The initial height reading could not be decoded. */
    | UnreadableHeight

  datatype Phase = Idle | Driving | Finished(ending: Ending)

  /** A move has started driving: the first directional command was written. */
  predicate HasDriven(p: Phase) {
    p == Driving || p == Finished(Stopped) || p == Finished(TimedOut)
  }

  class Desk {
    /** The Reference-Input Stop is written only on Linux. */
    const isLinux: bool
    const toleranceRaw: int

    /** The process-wide stop flag; it is never cleared. */
    var stopFlag: bool
    /** Notifications since the first command or the last resend. */
    var count: int
    var direction: Direction
    var target: int
    var phase: Phase
    /** Height notifications are enabled. */
    var subscribed: bool
    /** Every characteristic write so far, in order. */
    var log: seq<Write>

    /** The height read when the move started. */
    ghost var initialHeight: int
    /** The decoded heights notified during the move, in order. */
    ghost var heights: seq<int>

    ghost predicate Valid()
      reads this
    {
      && (phase == Driving <==> subscribed)
      && (!HasDriven(phase) ==> log == [] && heights == [])
      && (phase == Finished(AlreadyAtTarget) ==>
            HasReachedTarget(initialHeight, target, toleranceRaw)
            && direction == DirectionFor(target, initialHeight))
      && (HasDriven(phase) ==>
            && direction == DirectionFor(target, initialHeight)
            && !HasReachedTarget(initialHeight, target, toleranceRaw)
            && Tracks(Drive(direction, target, count), heights, log, stopFlag, toleranceRaw, isLinux))
      && (phase == Driving && !stopFlag ==> 0 <= count < RESEND_EVERY)
    }

    constructor (isLinux: bool, toleranceRaw: int)
      ensures Valid()
      ensures this.isLinux == isLinux && this.toleranceRaw == toleranceRaw
      ensures phase == Idle && !stopFlag && !subscribed && log == [] && count == 0
    {
      this.isLinux := isLinux;
      this.toleranceRaw := toleranceRaw;
      stopFlag := false;
      count := 0;
      direction := Down;
      target := 0;
      phase := Idle;
      subscribed := false;
      log := [];
      initialHeight := 0;
      heights := [];
    }

    /** `asked_to_stop`. */
    method AskedToStop() returns (b: bool)
      ensures b == stopFlag
    {
      b := stopFlag;
    }

    /** `ask_to_stop`, also the signal handler: sets the flag, idempotently. */
    method AskToStop()
      requires Valid()
      modifies this`stopFlag
      ensures Valid() && stopFlag
    {
      stopFlag := true;
    }

    /**
     * The transport's disconnect callback: reports the lost connection unless
     * a stop was already asked for, and always sets the stop flag.
     */
    method OnDisconnect() returns (reportLost: bool)
      requires Valid()
      modifies this`stopFlag
      ensures Valid() && stopFlag
      ensures reportLost == !old(stopFlag)
    {
      reportLost := !stopFlag;
      AskToStop();
    }

    /**
     * `move_to` up to the point where it waits: decode the one-shot height
     * reading, fix the direction, and unless the desk is already within
     * tolerance write the first directional command and subscribe.
     */
    method Start(target: int, reading: seq<Byte>)
      requires Valid() && phase == Idle
      modifies this
      ensures Valid()
      ensures stopFlag == old(stopFlag)
      ensures this.target == target && count == 0 && heights == []
      ensures UnpackTelemetry(reading).Failure? ==>
        phase == Finished(UnreadableHeight) && !subscribed && log == []
      ensures UnpackTelemetry(reading).Success? ==>
        var height := UnpackTelemetry(reading).value.height;
        && initialHeight == height
        && direction == DirectionFor(target, height)
        && (HasReachedTarget(height, target, toleranceRaw) ==>
              phase == Finished(AlreadyAtTarget) && !subscribed && log == [])
        && (!HasReachedTarget(height, target, toleranceRaw) ==>
              phase == Driving && subscribed && log == [MoveCommand(direction)])
    {
      this.target := target;
      count := 0;
      heights := [];
      var decoded := UnpackTelemetry(reading);
      if decoded.Failure? {
        phase := Finished(UnreadableHeight);
        return;
      }
      var height := decoded.value.height;
      initialHeight := height;
      direction := DirectionFor(target, height);
      if HasReachedTarget(height, target, toleranceRaw) {
        phase := Finished(AlreadyAtTarget);
      } else {
        subscribed := true;
        log := log + [MoveCommand(direction)];
        phase := Driving;
      }
    }

    /**
     * The notification callback `_move_to`. A payload that is not four bytes
     * makes the decoding raise before anything changes.
     */
    method OnNotify(data: seq<Byte>)
      requires Valid() && phase == Driving
      modifies this`count, this`log, this`stopFlag, this`heights
      ensures Valid() && phase == Driving
      ensures UnpackTelemetry(data).Failure? ==>
        count == old(count) && log == old(log) && stopFlag == old(stopFlag) && heights == old(heights)
      ensures UnpackTelemetry(data).Success? ==>
        var height := UnpackTelemetry(data).value.height;
        var r := OnHeight(Drive(direction, target, old(count)), height, toleranceRaw, isLinux);
        && heights == old(heights) + [height]
        && count == r.next.count
        && log == old(log) + r.writes
        && stopFlag == (old(stopFlag) || r.askStop)
    {
      var decoded := UnpackTelemetry(data);
      if decoded.Failure? {
        return;
      }
      var height := decoded.value.height;
      ghost var r := OnHeight(Drive(direction, target, count), height, toleranceRaw, isLinux);
      TracksStep(Drive(direction, target, count), heights, log, stopFlag, height, toleranceRaw, isLinux);
      heights := heights + [height];
      count := count + 1;
      if HasReachedTarget(height, target, toleranceRaw) {
        log := log + StopCommands(isLinux);
        stopFlag := true;
      } else if count == RESEND_EVERY {
        log := log + [MoveCommand(direction)];
        count := 0;
      } else {
        assert r.writes == [];
      }
      assert r.next == Drive(direction, target, count);
    }

    /**
     * One turn of the subscription loop in `subscribe`: once the stop flag
     * is set, disable notifications and end the move.
     */
    method OnPoll()
      requires Valid() && phase == Driving
      modifies this`phase, this`subscribed
      ensures Valid()
      ensures stopFlag ==> phase == Finished(Stopped) && !subscribed
      ensures !stopFlag ==> phase == Driving && subscribed
    {
      if stopFlag {
        subscribed := false;
        phase := Finished(Stopped);
      }
    }

    /**
     * The movement timeout: disable notifications and end the move without
     * error. The stop flag is left as it is and nothing is written.
     */
    method OnTimeout()
      requires Valid() && phase == Driving
      modifies this`phase, this`subscribed
      ensures Valid() && phase == Finished(TimedOut) && !subscribed
    {
      subscribed := false;
      phase := Finished(TimedOut);
    }

    /**
     * Between notifications of a move whose stop flag is unset, the counter is
     * the number of notifications modulo six, and the log holds the first
     * directional command followed by one resend for every sixth notification.
     */
    lemma ResendHistory()
      requires Valid() && HasDriven(phase) && !stopFlag
      ensures count == |heights| % RESEND_EVERY
      ensures log == Repeat(MoveCommand(direction), 1 + |heights| / RESEND_EVERY)
    {
      var start := Drive(direction, target, 0);
      FollowAsksStopIffConverged(start, heights, toleranceRaw, isLinux);
      FollowResendsEverySixth(start, heights, toleranceRaw, isLinux);
      var w := MoveCommand(direction);
      RepeatPrepend(w, |heights| / RESEND_EVERY);
    }

    /** A driven move never writes the directional command opposite to its own. */
    lemma NeverReverses()
      requires Valid() && HasDriven(phase)
      ensures MoveCommand(Opposite(direction)) !in log
    {
      FollowNeverReverses(Drive(direction, target, 0), heights, toleranceRaw, isLinux);
      CommandBytes();
      assert MoveCommand(Opposite(direction)) != MoveCommand(direction);
    }

    /** Once some notified height has converged, the stop flag is set. */
    lemma StopFlagSetOnConvergence()
      requires Valid() && HasDriven(phase)
      requires Converged(heights, target, toleranceRaw)
      ensures stopFlag
    {
      FollowAsksStopIffConverged(Drive(direction, target, 0), heights, toleranceRaw, isLinux);
    }
  }
}
