/**
 * The decisions the move controller takes, as pure functions: the direction
 * chosen at the start of a move, the convergence test, the commands written,
 * and the reaction to one height notification. `Follow` folds the reaction
 * over the heights notified during a move; the lemmas state what that fold
 * guarantees: resends every sixth notification, Stop exactly on convergence,
 * and a direction that is never reversed.
 */
module Movement {
  import opened Wrappers
  import opened Wire

  datatype Direction = Up | Down

  /** The two characteristics the controller writes to. */
  datatype Characteristic = Command | ReferenceInput

  /** One characteristic write, as recorded in the controller's log. */
  datatype Write = Write(characteristic: Characteristic, payload: seq<Byte>)

  /** Notifications between two resends of the directional command. */
  const RESEND_EVERY: int := 6

  /** UP exactly when the target lies above the initial height. */
  function DirectionFor(target: int, initialHeight: int): (d: Direction)
    ensures d == Up <==> initialHeight < target
    ensures d == Down <==> target <= initialHeight
  {
    if target > initialHeight then Up else Down
  }

  function Abs(x: int): nat {
    if x < 0 then -x else x
  }

  /** The reported height is within the tolerance band around the target. */
  predicate HasReachedTarget(height: int, target: int, toleranceRaw: int)
    ensures HasReachedTarget(height, target, toleranceRaw) <==>
      target - toleranceRaw <= height <= target + toleranceRaw
  {
    Abs(height - target) <= toleranceRaw
  }

  lemma HasReachedTargetSymmetric(height: int, target: int, toleranceRaw: int)
    ensures HasReachedTarget(height, target, toleranceRaw) <==> HasReachedTarget(target, height, toleranceRaw)
  {
  }

  /** True at exactly the tolerance on either side, false one unit further. */
  lemma HasReachedTargetBoundary(target: int, toleranceRaw: nat)
    ensures HasReachedTarget(target + toleranceRaw, target, toleranceRaw)
    ensures HasReachedTarget(target - toleranceRaw, target, toleranceRaw)
    ensures !HasReachedTarget(target + toleranceRaw + 1, target, toleranceRaw)
    ensures !HasReachedTarget(target - toleranceRaw - 1, target, toleranceRaw)
  {
  }

  /** `move_up` / `move_down`: the directional code on the Command characteristic. */
  function MoveCommand(d: Direction): (w: Write)
    ensures w.characteristic == Command
    ensures UnpackU16(w.payload) == Success(if d == Up then UP else DOWN)
  {
    CommandBytes();
    Write(Command, if d == Up then COMMAND_UP else COMMAND_DOWN)
  }

  /**
   * `stop`: Stop on the Command characteristic, then, on Linux only, the
   * Reference-Input Stop on the Reference Input characteristic.
   */
  function StopCommands(isLinux: bool): (ws: seq<Write>)
    ensures |ws| == if isLinux then 2 else 1
    ensures ws[0].characteristic == Command && UnpackU16(ws[0].payload) == Success(STOP)
    ensures isLinux ==>
      ws[1].characteristic == ReferenceInput && UnpackU16(ws[1].payload) == Success(REFERENCE_INPUT_STOP)
  {
    CommandBytes();
    [Write(Command, COMMAND_STOP)] + if isLinux then [Write(ReferenceInput, COMMAND_REFERENCE_INPUT_STOP)] else []
  }

  /** No stop write is a directional command. */
  lemma StopIsNotMove(isLinux: bool, d: Direction)
    ensures MoveCommand(d) !in StopCommands(isLinux)
  {
    CommandBytes();
  }

  function Opposite(d: Direction): Direction {
    if d == Up then Down else Up
  }

  /** What one move keeps between notifications: its direction, target and resend counter. */
  datatype Drive = Drive(direction: Direction, target: int, count: int)

  /** The reaction to one notification: the next state, the writes, and whether to ask to stop. */
  datatype Reaction = Reaction(next: Drive, writes: seq<Write>, askStop: bool)

  /**
   * The notification callback: count the notification; on convergence write
   * Stop and ask to stop; otherwise, on the sixth notification, resend the
   * move's own directional command and restart the count.
   */
  function OnHeight(d: Drive, height: int, toleranceRaw: int, isLinux: bool): (r: Reaction)
    ensures r.next.direction == d.direction && r.next.target == d.target
    ensures r.askStop <==> HasReachedTarget(height, d.target, toleranceRaw)
    ensures r.askStop ==> r.writes == StopCommands(isLinux) && r.next.count == d.count + 1
    ensures !r.askStop ==>
      && r.next.count == (if d.count + 1 == RESEND_EVERY then 0 else d.count + 1)
      && r.writes == (if d.count + 1 == RESEND_EVERY then [MoveCommand(d.direction)] else [])
  {
    var count := d.count + 1;
    if HasReachedTarget(height, d.target, toleranceRaw) then
      Reaction(d.(count := count), StopCommands(isLinux), true)
    else if count == RESEND_EVERY then
      Reaction(d.(count := 0), [MoveCommand(d.direction)], false)
    else
      Reaction(d.(count := count), [], false)
  }

  /** The reactions to the heights notified so far, in order, combined. */
  function Follow(d: Drive, heights: seq<int>, toleranceRaw: int, isLinux: bool): (r: Reaction)
    ensures r.next.direction == d.direction && r.next.target == d.target
    decreases |heights|
  {
    if heights == [] then Reaction(d, [], false)
    else
      var before := Follow(d, heights[..|heights| - 1], toleranceRaw, isLinux);
      var step := OnHeight(before.next, heights[|heights| - 1], toleranceRaw, isLinux);
      Reaction(step.next, before.writes + step.writes, before.askStop || step.askStop)
  }

  /** Following one more notification is one more reaction after those so far. */
  lemma FollowAppend(d: Drive, heights: seq<int>, height: int, toleranceRaw: int, isLinux: bool)
    ensures var before := Follow(d, heights, toleranceRaw, isLinux);
      var step := OnHeight(before.next, height, toleranceRaw, isLinux);
      Follow(d, heights + [height], toleranceRaw, isLinux)
        == Reaction(step.next, before.writes + step.writes, before.askStop || step.askStop)
  {
    assert (heights + [height])[..|heights|] == heights;
  }

  /**
   * The state of a move that has written its first directional command and
   * then followed `heights`: its drive state, its log, and a stop flag that is
   * set if any reaction asked to stop.
   */
  ghost predicate Tracks(d: Drive, heights: seq<int>, log: seq<Write>, stopFlag: bool, toleranceRaw: int, isLinux: bool) {
    var r := Follow(Drive(d.direction, d.target, 0), heights, toleranceRaw, isLinux);
    && r.next == d
    && log == [MoveCommand(d.direction)] + r.writes
    && (r.askStop ==> stopFlag)
  }

  /** Reacting to one more notification keeps a move's state tracked. */
  lemma TracksStep(d: Drive, heights: seq<int>, log: seq<Write>, stopFlag: bool, height: int, toleranceRaw: int, isLinux: bool)
    requires Tracks(d, heights, log, stopFlag, toleranceRaw, isLinux)
    ensures var r := OnHeight(d, height, toleranceRaw, isLinux);
      Tracks(r.next, heights + [height], log + r.writes, stopFlag || r.askStop, toleranceRaw, isLinux)
  {
    FollowAppend(Drive(d.direction, d.target, 0), heights, height, toleranceRaw, isLinux);
  }

  /** `n` copies of one write. */
  function Repeat(w: Write, n: nat): (ws: seq<Write>)
    ensures |ws| == n
    ensures forall i :: 0 <= i < n ==> ws[i] == w
  {
    if n == 0 then [] else Repeat(w, n - 1) + [w]
  }

  lemma {:induction false} RepeatPrepend(w: Write, n: nat)
    ensures [w] + Repeat(w, n) == Repeat(w, n + 1)
  {
    if n > 0 {
      RepeatPrepend(w, n - 1);
    }
  }

  /** Some notified height is within tolerance of the target. */
  ghost predicate Converged(heights: seq<int>, target: int, toleranceRaw: int) {
    exists i :: 0 <= i < |heights| && HasReachedTarget(heights[i], target, toleranceRaw)
  }

  /** The move asks to stop exactly when some notified height has converged. */
  lemma {:induction false} FollowAsksStopIffConverged(d: Drive, heights: seq<int>, toleranceRaw: int, isLinux: bool)
    ensures Follow(d, heights, toleranceRaw, isLinux).askStop <==> Converged(heights, d.target, toleranceRaw)
    decreases |heights|
  {
    if heights != [] {
      var n := |heights| - 1;
      var prefix := heights[..n];
      FollowAsksStopIffConverged(d, prefix, toleranceRaw, isLinux);
      if Converged(prefix, d.target, toleranceRaw) {
        var i :| 0 <= i < |prefix| && HasReachedTarget(prefix[i], d.target, toleranceRaw);
        assert heights[i] == prefix[i];
      }
      if Converged(heights, d.target, toleranceRaw) {
        var i :| 0 <= i < |heights| && HasReachedTarget(heights[i], d.target, toleranceRaw);
        if i < n {
          assert prefix[i] == heights[i];
        }
      }
    }
  }

  /**
   * Before convergence the counter runs modulo six and the only writes are
   * the move's own directional command, one for every sixth notification.
   */
  lemma {:induction false} FollowResendsEverySixth(d: Drive, heights: seq<int>, toleranceRaw: int, isLinux: bool)
    requires 0 <= d.count < RESEND_EVERY
    requires !Converged(heights, d.target, toleranceRaw)
    ensures Follow(d, heights, toleranceRaw, isLinux).next.count == (d.count + |heights|) % RESEND_EVERY
    ensures Follow(d, heights, toleranceRaw, isLinux).writes
      == Repeat(MoveCommand(d.direction), (d.count + |heights|) / RESEND_EVERY)
    ensures !Follow(d, heights, toleranceRaw, isLinux).askStop
    decreases |heights|
  {
    if heights != [] {
      var n := |heights| - 1;
      var prefix, last := heights[..n], heights[n];
      assert heights == prefix + [last];
      forall i | 0 <= i < |prefix|
        ensures !HasReachedTarget(prefix[i], d.target, toleranceRaw)
      {
        assert prefix[i] == heights[i];
      }
      assert !HasReachedTarget(last, d.target, toleranceRaw);
      FollowResendsEverySixth(d, prefix, toleranceRaw, isLinux);
      FollowAppend(d, prefix, last, toleranceRaw, isLinux);
      var before := Follow(d, prefix, toleranceRaw, isLinux);
      ResendStep(MoveCommand(d.direction), d.count + n, before, OnHeight(before.next, last, toleranceRaw, isLinux));
    }
  }

  /** The counting step of FollowResendsEverySixth, on the reactions alone. */
  lemma ResendStep(w: Write, c: nat, before: Reaction, step: Reaction)
    requires before.next.count == c % RESEND_EVERY && before.writes == Repeat(w, c / RESEND_EVERY)
    requires step.next.count == if before.next.count + 1 == RESEND_EVERY then 0 else before.next.count + 1
    requires step.writes == if before.next.count + 1 == RESEND_EVERY then [w] else []
    ensures step.next.count == (c + 1) % RESEND_EVERY
    ensures before.writes + step.writes == Repeat(w, (c + 1) / RESEND_EVERY)
  {
    CounterStep(c);
    if step.next.count == 0 {
      assert Repeat(w, c / RESEND_EVERY + 1) == Repeat(w, c / RESEND_EVERY) + [w];
    }
  }

  /** One more notification advances the counter modulo six and adds a resend when it wraps. */
  lemma CounterStep(c: nat)
    ensures (c + 1) % RESEND_EVERY == (c % RESEND_EVERY + 1) % RESEND_EVERY
    ensures (c + 1) / RESEND_EVERY == c / RESEND_EVERY + if c % RESEND_EVERY + 1 == RESEND_EVERY then 1 else 0
  {
  }

  /**
   * The first converged notification writes the Stop commands right after
   * the resends so far, and asks to stop.
   */
  lemma FollowStopsOnConvergence(d: Drive, heights: seq<int>, height: int, toleranceRaw: int, isLinux: bool)
    requires 0 <= d.count < RESEND_EVERY
    requires !Converged(heights, d.target, toleranceRaw)
    requires HasReachedTarget(height, d.target, toleranceRaw)
    ensures Follow(d, heights + [height], toleranceRaw, isLinux).writes
      == Repeat(MoveCommand(d.direction), (d.count + |heights|) / RESEND_EVERY) + StopCommands(isLinux)
    ensures Follow(d, heights + [height], toleranceRaw, isLinux).askStop
  {
    FollowAppend(d, heights, height, toleranceRaw, isLinux);
    FollowResendsEverySixth(d, heights, toleranceRaw, isLinux);
  }

  /** The opposite directional command is never written during a move. */
  lemma {:induction false} FollowNeverReverses(d: Drive, heights: seq<int>, toleranceRaw: int, isLinux: bool)
    ensures MoveCommand(Opposite(d.direction)) !in Follow(d, heights, toleranceRaw, isLinux).writes
    decreases |heights|
  {
    if heights != [] {
      var n := |heights| - 1;
      FollowNeverReverses(d, heights[..n], toleranceRaw, isLinux);
      StopIsNotMove(isLinux, Opposite(d.direction));
      CommandBytes();
      assert MoveCommand(Opposite(d.direction)) != MoveCommand(d.direction);
    }
  }

  /**
   * Notifications that arrive after Stop and before the subscription loop
   * unsubscribes are still handled. When the converged notification is the
   * fifth since the last resend, the next, overshooting one brings the count
   * to six and the directional command follows Stop.
   */
  lemma ResendAfterStop(d: Drive, heights: seq<int>, reached: int, overshoot: int, toleranceRaw: int, isLinux: bool)
    requires 0 <= d.count < RESEND_EVERY
    requires !Converged(heights, d.target, toleranceRaw)
    requires (d.count + |heights|) % RESEND_EVERY == 4
    requires HasReachedTarget(reached, d.target, toleranceRaw)
    requires !HasReachedTarget(overshoot, d.target, toleranceRaw)
    ensures Follow(d, heights + [reached] + [overshoot], toleranceRaw, isLinux).writes
      == Repeat(MoveCommand(d.direction), (d.count + |heights|) / RESEND_EVERY)
         + StopCommands(isLinux) + [MoveCommand(d.direction)]
  {
    FollowResendsEverySixth(d, heights, toleranceRaw, isLinux);
    FollowAppend(d, heights, reached, toleranceRaw, isLinux);
    FollowAppend(d, heights + [reached], overshoot, toleranceRaw, isLinux);
  }

  /** An instance: target 100, tolerance 10, four low readings, 100, then 200. */
  lemma ResendAfterStopExample(heights: seq<int>)
    requires heights == [0, 0, 0, 0, 100, 200]
    ensures Follow(Drive(Up, 100, 0), heights, 10, true).writes == StopCommands(true) + [MoveCommand(Up)]
  {
    var low := heights[..4];
    assert !HasReachedTarget(low[0], 100, 10);
    ResendAfterStop(Drive(Up, 100, 0), low, 100, 200, 10, true);
    assert low + [100] + [200] == heights;
  }
}
