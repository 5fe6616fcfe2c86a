/**
 * The stepper controller client: each axis or sensor operation writes one
 * request to its port; only the status and sensor queries read a reply.
 * Its port here is the emulated device.
 */
module Controller {
  import opened PyText
  import opened Protocol
  import opened FakeDevice

  /**
   * get_status's decoding: the reply split on ':' with int() applied to every
   * field. A sensor value prints as a float, which int() rejects.
   */
  function DecodeStatus(reply: Reply): Result<seq<int>> {
    match reply
    case Line(text) => ParseStatus(text)
    case Coupling(_) => ValueError
  }

  /**
   * get_sensor's float(reply), with the sensor value kept symbolic. The only
   * text lines the emulator produces, '' and '<n>:1:0', are not float
   * literals, so float() rejects them.
   */
  function DecodeSensor(reply: Reply): Result<map<Key, int>> {
    match reply
    case Coupling(positions) => Ok(positions)
    case Line(_) => ValueError
  }

  /**
   * A status request leaves the emulator's positions alone and, whatever they
   * are, its reply decodes to [0, 1, 0].
   */
  lemma StatusExchange(motor: int, pos: map<Key, int>)
    requires IntKeysOnly(pos)
    ensures WriteEffect(pos, Encode(Status(motor))) == Ok(pos)
    ensures DecodeStatus(ReplyTo(Encode(Status(motor)), pos)) == Ok([0, 1, 0])
  {
    WriteEncoded(Status(motor), pos);
    ReplyToEncoded(Status(motor), pos);
    IdleStatusDecodes();
  }

  class StepperController {
    const port: FakeSerial
    const nMotors: int

    constructor (port: FakeSerial, nMotors: int)
      ensures this.port == port && this.nMotors == nMotors
    {
      this.port := port;
      this.nMotors := nMotors;
    }

    /** Queries an axis; against the emulator the answer is always [0, 1, 0]. */
    method GetStatus(motor: int) returns (r: Result<seq<int>>)
      requires port.Valid()
      modifies port`lastCmd, port`pos, port`trace
      ensures port.Valid()
      ensures port.lastCmd == Encode(Status(motor)) && port.pos == old(port.pos)
      ensures port.trace == old(port.trace) + [Wrote(Encode(Status(motor))), Flushed, ReadLine]
      ensures r == Ok([0, 1, 0])
    {
      StatusExchange(motor, port.pos);
      var _ := port.Write(Encode(Status(motor)));
      port.Flush();
      var reply := port.ReadUntil();
      r := DecodeStatus(reply);
    }

    /** Asks the device to take its current position as zero; no flush, no reply. */
    method ResetPos(motor: int)
      requires port.Valid()
      modifies port`lastCmd, port`pos, port`trace
      ensures port.Valid()
      ensures port.lastCmd == Encode(Reset(motor)) && port.pos == old(port.pos)
      ensures port.trace == old(port.trace) + [Wrote(Encode(Reset(motor)))]
    {
      WriteEncoded(Reset(motor), port.pos);
      var _ := port.Write(Encode(Reset(motor)));
    }

    method SetVel(motor: int, vel: int)
      requires port.Valid()
      modifies port`lastCmd, port`pos, port`trace
      ensures port.Valid()
      ensures port.lastCmd == Encode(Velocity(motor, vel)) && port.pos == old(port.pos)
      ensures port.trace == old(port.trace) + [Wrote(Encode(Velocity(motor, vel))), Flushed]
    {
      WriteEncoded(Velocity(motor, vel), port.pos);
      var _ := port.Write(Encode(Velocity(motor, vel)));
      port.Flush();
    }

    method MoveRel(motor: int, steps: int)
      requires port.Valid()
      modifies port`lastCmd, port`pos, port`trace
      ensures port.Valid()
      ensures port.lastCmd == Encode(Command.MoveRel(motor, steps))
      ensures port.pos == Apply(Command.MoveRel(motor, steps), old(port.pos))
      ensures PositionOf(port.pos, motor) == PositionOf(old(port.pos), motor) + steps
      ensures port.trace == old(port.trace) + [Wrote(Encode(Command.MoveRel(motor, steps))), Flushed]
    {
      var cmd := Encode(Command.MoveRel(motor, steps));
      WriteEncoded(Command.MoveRel(motor, steps), port.pos);
      var _ := port.Write(cmd);
      port.Flush();
    }

    method MoveAbs(motor: int, steps: int)
      requires port.Valid()
      modifies port`lastCmd, port`pos, port`trace
      ensures port.Valid()
      ensures port.lastCmd == Encode(Command.MoveAbs(motor, steps))
      ensures port.pos == old(port.pos)[IntKey(motor) := steps]
      ensures port.trace == old(port.trace) + [Wrote(Encode(Command.MoveAbs(motor, steps))), Flushed]
    {
      var cmd := Encode(Command.MoveAbs(motor, steps));
      WriteEncoded(Command.MoveAbs(motor, steps), port.pos);
      assert WriteEffect(port.pos, cmd) == Ok(Apply(Command.MoveAbs(motor, steps), port.pos));
      var _ := port.Write(cmd);
      port.Flush();
    }

    /** Samples a sensor: the value computed from the positions the emulator holds. */
    method GetSensor(sensor: int) returns (r: Result<map<Key, int>>)
      requires port.Valid()
      modifies port`lastCmd, port`pos, port`trace
      ensures port.Valid()
      ensures port.lastCmd == Encode(Sensor(sensor)) && port.pos == old(port.pos)
      ensures port.trace == old(port.trace) + [Wrote(Encode(Sensor(sensor))), Flushed, ReadLine]
      ensures r == Ok(old(port.pos))
    {
      var cmd := Encode(Sensor(sensor));
      WriteEncoded(Sensor(sensor), port.pos);
      ReplyToEncoded(Sensor(sensor), port.pos);
      var _ := port.Write(cmd);
      assert port.pos == old(port.pos);
      port.Flush();
      var reply := port.ReadUntil();
      r := DecodeSensor(reply);
    }
  }

  /**
   * Relative moves of 50 and then -20 on an axis the emulator has never
   * seen leave it at 30, and a status query of that axis still answers
   * [0, 1, 0].
   */
  method RelativeMovesThenStatus(m: int) returns (position: int, status: Result<seq<int>>)
    ensures position == 30
    ensures status == Ok([0, 1, 0])
  {
    var port := new FakeSerial("None");
    var controller := new StepperController(port, 8);
    controller.MoveRel(m, 50);
    controller.MoveRel(m, -20);
    position := PositionOf(port.pos, m);
    status := controller.GetStatus(m);
  }
}
