/**
 * The state the mirror window keeps about its axes, with the window's own
 * widgets stripped away: positions, lower and upper bounds per axis, the
 * manual step, the axes chosen for optimisation, the running flag and the
 * enabled state of the Optimize and Stop buttons. Its controller talks to
 * the emulated device, so moves take effect at once.
 */
module Gui {
  import opened PyText
  import opened Protocol
  import opened FakeDevice
  import opened Controller
  import opened Bounds

  datatype Option<T> = None | Some(value: T)

  /** One axis per channel name: Rb and K, back and front mirror, X and Y. */
  const NMotors: nat := 8

  /** The manual step sizes offered; the first is selected at startup. */
  const StepChoices: seq<string> := ["1", "10", "100", "1000"]

  class MirrorGui {
    const port: FakeSerial
    const controller: StepperController
    var positions: seq<int>
    var minPos: seq<int>
    var maxPos: seq<int>
    var inc: int
    var optimizing: bool
    var optAxes: seq<int>
    var optEnabled: bool
    var stopEnabled: bool

    /** One entry per axis in each list, and the controller drives this window's port. */
    ghost predicate Shaped()
      reads this, port
    {
      |positions| == NMotors && |minPos| == NMotors && |maxPos| == NMotors &&
      controller.port == port && port.Valid()
    }

    /** Every axis lies within its bounds. */
    ghost predicate Valid()
      reads this, port
    {
      Shaped() &&
      forall i :: 0 <= i < NMotors ==> minPos[i] <= positions[i] <= maxPos[i]
    }

    /**
     * Startup on the emulated device: every axis is read back through a
     * status query and then given the window of 100 steps either side of it.
     */
    constructor (portName: string)
      ensures Valid() && fresh(port) && fresh(controller)
      ensures port.name == portName && port.pos == map[]
      ensures forall i :: 0 <= i < NMotors ==> positions[i] == 0
      ensures forall i :: 0 <= i < NMotors ==> (minPos[i], maxPos[i]) == StartupWindow(positions[i])
      ensures inc == 1 && !optimizing && optAxes == []
      ensures !optEnabled && !stopEnabled
      ensures port.lastCmd == Encode(Status(NMotors - 1))
      ensures |port.trace| == 3 * NMotors
      ensures forall i :: 0 <= i < NMotors ==>
        port.trace[3 * i .. 3 * i + 3] == [Wrote(Encode(Status(i))), Flushed, ReadLine]
    {
      var p := new FakeSerial(portName);
      var c := new StepperController(p, NMotors);
      port := p;
      controller := c;
      minPos := seq(NMotors, _ => InitialMin);
      maxPos := seq(NMotors, _ => InitialMax);
      optimizing := false;
      optAxes := [];
      ParseFormat(1);
      inc := ParseInt(StepChoices[0]).value;
      optEnabled := false;
      stopEnabled := false;
      var read := ReadPositions(c, NMotors);
      positions := read;
      new;
      ApplyStartupBounds();
      forall i | 0 <= i < NMotors
        ensures (minPos[i], maxPos[i]) == StartupWindow(positions[i])
      {
        StartupAsWrittenMatchesWindow(positions[i]);
      }
      StatusReadsPrefix(NMotors, NMotors);
      forall i | 0 <= i < NMotors
        ensures port.trace[3 * i .. 3 * i + 3] == [Wrote(Encode(Status(i))), Flushed, ReadLine]
      {
        StatusReadsAt(NMotors, i);
      }
    }

    /**
     * The startup loop over the axes: set_min(i, pos - 100) and then
     * set_max(i, pos + 100) on every axis, starting from the initial bounds.
     */
    method ApplyStartupBounds()
      requires Shaped()
      requires forall j :: 0 <= j < NMotors ==> minPos[j] == InitialMin && maxPos[j] == InitialMax
      modifies this`minPos, this`maxPos
      ensures Valid()
      ensures forall j :: 0 <= j < NMotors ==> (minPos[j], maxPos[j]) == StartupBoundsAsWritten(positions[j])
    {
      for i := 0 to NMotors
        invariant Shaped()
        invariant forall j :: 0 <= j < i ==> (minPos[j], maxPos[j]) == StartupBoundsAsWritten(positions[j])
        invariant forall j :: i <= j < NMotors ==> minPos[j] == InitialMin && maxPos[j] == InitialMax
      {
        SetMin(i, positions[i] - StartupMargin);
        SetMax(i, positions[i] + StartupMargin);
      }
    }

    /**
     * Rebuilds the list of axes to optimise from the check boxes, in index
     * order, and enables the Optimize button exactly when it is non-empty.
     */
    method SetOptAxes(checked: seq<bool>)
      requires |checked| == NMotors
      modifies this`optAxes, this`optEnabled
      ensures optAxes == CheckedIndices(checked, NMotors)
      ensures optEnabled <==> optAxes != []
    {
      optAxes := [];
      for i := 0 to NMotors
        invariant optAxes == CheckedIndices(checked, i)
      {
        if checked[i] {
          optAxes := optAxes + [i];
        }
      }
      if |optAxes| == 0 {
        optEnabled := false;
      } else {
        optEnabled := true;
      }
    }

    /** Stores a lower bound for axis i; the other axes keep theirs. */
    method SetMin(i: int, val: int)
      requires Shaped() && 0 <= i < NMotors
      modifies this`minPos
      ensures Shaped()
      ensures minPos == old(minPos)[i := NewMin(val, maxPos[i], positions[i])]
      ensures minPos[i] <= positions[i] && minPos[i] <= maxPos[i]
      ensures old(Valid()) ==> Valid()
    {
      if val < maxPos[i] && val <= positions[i] {
        minPos := minPos[i := val];
      } else {
        minPos := minPos[i := Min(maxPos[i], positions[i])];
      }
    }

    /** Stores an upper bound for axis i; the other axes keep theirs. */
    method SetMax(i: int, val: int)
      requires Shaped() && 0 <= i < NMotors
      modifies this`maxPos
      ensures Shaped()
      ensures maxPos == old(maxPos)[i := NewMax(val, minPos[i], positions[i])]
      ensures maxPos[i] >= positions[i] && maxPos[i] >= minPos[i]
      ensures old(Valid()) ==> Valid()
    {
      if val > minPos[i] && val >= positions[i] {
        maxPos := maxPos[i := val];
      } else {
        maxPos := maxPos[i := Max(minPos[i], positions[i])];
      }
    }

    /** Selects the manual step from the text of the step menu. */
    method SetInc(val: string) returns (r: Result<int>)
      modifies this`inc
      ensures r == ParseInt(val)
      ensures r.Ok? ==> inc == r.value
      ensures r.ValueError? ==> inc == old(inc)
    {
      r := ParseInt(val);
      if r.Ok? {
        inc := r.value;
      }
    }

    /** Records the position of an axis (the display update is not modelled). */
    method SetPosition(motor: int, pos: int)
      requires Shaped() && 0 <= motor < NMotors
      modifies this`positions
      ensures Shaped()
      ensures positions == old(positions)[motor := pos]
    {
      positions := positions[motor := pos];
    }

    /**
     * Zeros an axis: first widens its bounds so that they hold 0, then asks
     * the device to reset and records position 0. The emulator ignores the
     * reset request, so its own record of the axis is left as it was.
     */
    method Zero(motor: int)
      requires Valid() && 0 <= motor < NMotors
      modifies this`minPos, this`maxPos, this`positions, port`lastCmd, port`pos, port`trace
      ensures Valid()
      ensures positions == old(positions)[motor := 0]
      ensures minPos == old(minPos)[motor := Min(old(minPos[motor]), 0)]
      ensures maxPos == old(maxPos)[motor := Max(old(maxPos[motor]), 0)]
      ensures port.lastCmd == Encode(Reset(motor)) && port.pos == old(port.pos)
      ensures port.trace == old(port.trace) + [Wrote(Encode(Reset(motor)))]
    {
      ZeroRepairStoresZero(minPos[motor], positions[motor], maxPos[motor]);
      if maxPos[motor] < 0 {
        SetMax(motor, 0);
      }
      if minPos[motor] > 0 {
        SetMin(motor, 0);
      }
      controller.ResetPos(motor);
      SetPosition(motor, 0);
    }

    /**
     * Moves an axis to pos clamped into its bounds, on the emulated device.
     * When the clamped target is where the axis already is nothing is sent
     * and None is returned; otherwise one absolute move is sent, the axis is
     * recorded at the target and the target is returned.
     */
    method AbsMove(motor: int, pos: int) returns (moved: Option<int>)
      requires Valid() && 0 <= motor < NMotors
      modifies this`positions, port`lastCmd, port`pos, port`trace
      ensures Valid()
      ensures var t := Clamp(pos, minPos[motor], maxPos[motor]);
        positions == old(positions)[motor := t] &&
        (t == old(positions[motor]) ==>
          moved == None &&
          port.lastCmd == old(port.lastCmd) && port.pos == old(port.pos) && port.trace == old(port.trace)) &&
        (t != old(positions[motor]) ==>
          moved == Some(t) &&
          port.lastCmd == Encode(Command.MoveAbs(motor, t)) &&
          port.pos == old(port.pos)[IntKey(motor) := t] &&
          port.trace == old(port.trace) + [Wrote(Encode(Command.MoveAbs(motor, t))), Flushed])
    {
      var target := Clamp(pos, minPos[motor], maxPos[motor]);
      if target == positions[motor] {
        return None;
      }
      controller.MoveAbs(motor, target);
      SetPosition(motor, target);
      moved := Some(target);
    }

    /** Steps an axis up by inc, stopping at its upper bound. */
    method Increment(motor: int)
      requires Valid() && 0 <= motor < NMotors
      modifies this`positions, port`lastCmd, port`pos, port`trace
      ensures Valid()
      ensures var t := Clamp(IncrementTarget(old(positions[motor]), maxPos[motor], inc), minPos[motor], maxPos[motor]);
        positions == old(positions)[motor := t] &&
        (t == old(positions[motor]) ==>
          port.lastCmd == old(port.lastCmd) && port.pos == old(port.pos) && port.trace == old(port.trace)) &&
        (t != old(positions[motor]) ==>
          port.lastCmd == Encode(Command.MoveAbs(motor, t)) &&
          port.pos == old(port.pos)[IntKey(motor) := t] &&
          port.trace == old(port.trace) + [Wrote(Encode(Command.MoveAbs(motor, t))), Flushed])
      ensures inc >= 0 ==>
        positions[motor] == IncrementTarget(old(positions[motor]), maxPos[motor], inc) &&
        old(positions[motor]) <= positions[motor]
    {
      var finalPos := IncrementTarget(positions[motor], maxPos[motor], inc);
      if inc >= 0 {
        StepTargetsStayInBounds(minPos[motor], positions[motor], maxPos[motor], inc);
      }
      var _ := AbsMove(motor, finalPos);
    }

    /** Steps an axis down by inc, stopping at its lower bound. */
    method Decrement(motor: int)
      requires Valid() && 0 <= motor < NMotors
      modifies this`positions, port`lastCmd, port`pos, port`trace
      ensures Valid()
      ensures var t := Clamp(DecrementTarget(old(positions[motor]), minPos[motor], inc), minPos[motor], maxPos[motor]);
        positions == old(positions)[motor := t] &&
        (t == old(positions[motor]) ==>
          port.lastCmd == old(port.lastCmd) && port.pos == old(port.pos) && port.trace == old(port.trace)) &&
        (t != old(positions[motor]) ==>
          port.lastCmd == Encode(Command.MoveAbs(motor, t)) &&
          port.pos == old(port.pos)[IntKey(motor) := t] &&
          port.trace == old(port.trace) + [Wrote(Encode(Command.MoveAbs(motor, t))), Flushed])
      ensures inc >= 0 ==>
        positions[motor] == DecrementTarget(old(positions[motor]), minPos[motor], inc) &&
        positions[motor] <= old(positions[motor])
    {
      var finalPos := DecrementTarget(positions[motor], minPos[motor], inc);
      if inc >= 0 {
        StepTargetsStayInBounds(minPos[motor], positions[motor], maxPos[motor], inc);
      }
      var _ := AbsMove(motor, finalPos);
    }

    /**
     * Ends an optimisation run: clears the running flag, disables Stop and
     * enables Optimize; does nothing when no run is going on.
     */
    method Stop()
      modifies this`optimizing, this`stopEnabled, this`optEnabled
      ensures !optimizing
      ensures old(optimizing) ==> !stopEnabled && optEnabled
      ensures !old(optimizing) ==> stopEnabled == old(stopEnabled) && optEnabled == old(optEnabled)
    {
      if !optimizing {
        return;
      }
      optimizing := false;
      stopEnabled := false;
      optEnabled := true;
    }
  }

  /** The port events of querying the status of axes 0 to n - 1, in order. */
  ghost function StatusReads(n: nat): seq<PortEvent> {
    if n == 0 then [] else StatusReads(n - 1) + [Wrote(Encode(Status(n - 1))), Flushed, ReadLine]
  }

  /** Querying fewer axes gives a prefix of the events of querying more. */
  lemma {:induction false} StatusReadsPrefix(m: nat, n: nat)
    requires m <= n
    ensures |StatusReads(m)| == 3 * m
    ensures StatusReads(m) <= StatusReads(n)
  {
    if m < n {
      StatusReadsPrefix(m, n - 1);
    } else if m > 0 {
      StatusReadsPrefix(m - 1, m - 1);
    }
  }

  /** Axis j's status query fills events 3j to 3j + 2: write, flush, read. */
  lemma StatusReadsAt(n: nat, j: nat)
    requires j < n
    ensures |StatusReads(n)| == 3 * n
    ensures StatusReads(n)[3 * j .. 3 * j + 3] == [Wrote(Encode(Status(j))), Flushed, ReadLine]
  {
    StatusReadsPrefix(n, n);
    StatusReadsPrefix(j, j);
    StatusReadsPrefix(j + 1, n);
    var q := [Wrote(Encode(Status(j))), Flushed, ReadLine];
    assert StatusReads(j + 1) == StatusReads(j) + q;
    assert StatusReads(j + 1)[3 * j .. 3 * j + 3] == q;
  }

  /**
   * The status reads of startup: axes 0 to n - 1 are queried in order, one
   * write, flush and read each, and each reads back position 0 from the
   * emulator.
   */
  method ReadPositions(c: StepperController, n: nat) returns (read: seq<int>)
    requires c.port.Valid()
    modifies c.port`lastCmd, c.port`pos, c.port`trace
    ensures c.port.Valid() && c.port.pos == old(c.port.pos)
    ensures |read| == n && forall j :: 0 <= j < n ==> read[j] == 0
    ensures n > 0 ==> c.port.lastCmd == Encode(Status(n - 1))
    ensures n == 0 ==> c.port.lastCmd == old(c.port.lastCmd)
    ensures c.port.trace == old(c.port.trace) + StatusReads(n)
  {
    read := [];
    for i := 0 to n
      invariant c.port.Valid() && c.port.pos == old(c.port.pos)
      invariant |read| == i && forall j :: 0 <= j < i ==> read[j] == 0
      invariant i > 0 ==> c.port.lastCmd == Encode(Status(i - 1))
      invariant i == 0 ==> c.port.lastCmd == old(c.port.lastCmd)
      invariant c.port.trace == old(c.port.trace) + StatusReads(i)
    {
      var status := c.GetStatus(i);
      read := read + [status.value[0]];
    }
  }

  /**
   * Two moves of an axis to the same target send at most one command: the
   * second finds the axis already there and returns None.
   */
  method RepeatedAbsMove(g: MirrorGui, motor: int, pos: int) returns (first: Option<int>, second: Option<int>)
    requires g.Valid() && 0 <= motor < NMotors
    modifies g`positions, g.port`lastCmd, g.port`pos, g.port`trace
    ensures g.Valid() && second == None
    ensures first.Some? ==> g.port.trace == old(g.port.trace) + [Wrote(Encode(Command.MoveAbs(motor, first.value))), Flushed]
    ensures first.None? ==> g.port.trace == old(g.port.trace)
  {
    first := g.AbsMove(motor, pos);
    second := g.AbsMove(motor, pos);
  }

  /** Stopping twice leaves the window as stopping once does. */
  method StopTwice(g: MirrorGui)
    modifies g`optimizing, g`stopEnabled, g`optEnabled
    ensures !g.optimizing
    ensures g.optEnabled == (old(g.optimizing) || old(g.optEnabled))
    ensures g.stopEnabled == (!old(g.optimizing) && old(g.stopEnabled))
  {
    g.Stop();
    g.Stop();
  }
}
