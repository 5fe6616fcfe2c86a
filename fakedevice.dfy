/**
 * The emulated MKM microcontroller (FakeSerial): it remembers the last request
 * written to it and a dict of axis positions, applies absolute and relative
 * moves as they are written, and produces a reply only when it is read.
 */
module FakeDevice {
  import opened PyText
  import opened Protocol

  /**
   * A key of the emulator's position dict. A Python dict takes keys of any
   * type: writes store int keys, while the status read looks the axis up by
   * its str field, so both kinds of key are modelled.
   */
  datatype Key = IntKey(n: int) | StrKey(s: string)

  /** What the emulator ever stores: int keys only. */
  predicate IntKeysOnly(pos: map<Key, int>) {
    forall k :: k in pos ==> k.IntKey?
  }

  /**
   * What a read returns: a line of text, or the synthetic sensor value
   * exp(-sum(0.0001 * p * p for p in positions)), which is kept symbolic
   * as the positions it is computed from.
   */
  datatype Reply = Line(text: string) | Coupling(positions: map<Key, int>)

  /** Traffic on the port, kept to state which calls read and which flush. */
  datatype PortEvent = Wrote(cmd: string) | Flushed | ReadLine

  /** pos.get(m, 0): the position of axis m, 0 when none was ever commanded. */
  function PositionOf(pos: map<Key, int>, m: int): int {
    if IntKey(m) in pos then pos[IntKey(m)] else 0
  }

  predicate Moves(c: Command) {
    c.MoveAbs? || c.MoveRel?
  }

  /**
   * Reference semantics of the emulator, per request: an absolute move sets
   * the axis, a relative move adds to it (from 0 when unset), every other
   * request leaves the positions alone.
   */
  function Apply(c: Command, pos: map<Key, int>): (r: map<Key, int>)
    ensures c.MoveAbs? ==> IntKey(c.motor) in r && PositionOf(r, c.motor) == c.steps
    ensures c.MoveRel? ==> IntKey(c.motor) in r && PositionOf(r, c.motor) == PositionOf(pos, c.motor) + c.steps
    ensures !Moves(c) ==> r == pos
    ensures forall k :: k in pos ==> k in r
    ensures Moves(c) ==> forall k :: k in r && k != IntKey(c.motor) ==> k in pos && r[k] == pos[k]
  {
    match c
    case MoveAbs(m, s) => pos[IntKey(m) := s]
    case MoveRel(m, d) => pos[IntKey(m) := PositionOf(pos, m) + d]
    case _ => pos
  }

  /**
   * The position update of FakeSerial.write(cmd) on the dict pos: only a
   * 4-field STPM request is looked at; its axis and value fields go through
   * int() (raising ValueError when they are not integers), and then ABS
   * overwrites, REL adds, any other verb does nothing.
   */
  function WriteEffect(pos: map<Key, int>, cmd: string): Result<map<Key, int>> {
    var f := Split(cmd, Sep);
    if |f| == 4 && f[0] == "STPM" then
      match ParseInt(f[1])
      case ValueError => ValueError
      case Ok(key) =>
        match ParseInt(f[3])
        case ValueError => ValueError
        case Ok(val) =>
          if f[2] == "ABS" then Ok(pos[IntKey(key) := val])
          else if f[2] == "REL" then
            if IntKey(key) in pos then Ok(pos[IntKey(key) := pos[IntKey(key)] + val])
            else Ok(pos[IntKey(key) := val])
          else Ok(pos)
    else Ok(pos)
  }

  /**
   * What any write can do to the positions: ValueError only for a 4-field
   * STPM request; otherwise no key is lost, every new key is an int, and the
   * positions change only for a 4-field STPM ABS or REL request with an
   * integer axis, and only at that axis.
   */
  lemma WriteEffectFrame(pos: map<Key, int>, cmd: string)
    ensures var r := WriteEffect(pos, cmd);
      r.ValueError? ==> |Split(cmd, Sep)| == 4 && Split(cmd, Sep)[0] == "STPM"
    ensures var r := WriteEffect(pos, cmd);
      r.Ok? ==> (forall k :: k in pos ==> k in r.value) && (forall k :: k in r.value ==> k in pos || k.IntKey?)
    ensures var r := WriteEffect(pos, cmd);
      r.Ok? && r.value != pos ==>
        var f := Split(cmd, Sep);
        |f| == 4 && f[0] == "STPM" && f[2] in {"ABS", "REL"} && ParseInt(f[1]).Ok? &&
        forall k :: k in r.value && k != IntKey(ParseInt(f[1]).value) ==> k in pos && r.value[k] == pos[k]
  {
  }

  lemma WriteOtherShape(pos: map<Key, int>, cmd: string)
    requires |Split(cmd, Sep)| != 4
    ensures WriteEffect(pos, cmd) == Ok(pos)
  {
  }

  lemma WriteAbs(pos: map<Key, int>, c: Command)
    requires c.MoveAbs?
    ensures WriteEffect(pos, Encode(c)) == Ok(Apply(c, pos))
  {
    EncodeSplits(c);
    ParseFormat(c.motor);
    ParseFormat(c.steps);
  }

  lemma WriteRel(pos: map<Key, int>, c: Command)
    requires c.MoveRel?
    ensures WriteEffect(pos, Encode(c)) == Ok(Apply(c, pos))
  {
    EncodeSplits(c);
    var f := Split(Encode(c), Sep);
    assert f == ["STPM", FormatInt(c.motor), "REL", FormatInt(c.steps)];
    assert f[2] != "ABS" by { assert "REL"[0] != "ABS"[0]; }
    ParseFormat(c.motor);
    ParseFormat(c.steps);
    var m := IntKey(c.motor);
    var moved := if m in pos then pos[m := pos[m] + c.steps] else pos[m := c.steps];
    assert WriteEffect(pos, Encode(c)) == Ok(moved);
  }

  lemma WriteVel(pos: map<Key, int>, c: Command)
    requires c.Velocity?
    ensures WriteEffect(pos, Encode(c)) == Ok(Apply(c, pos))
  {
    EncodeSplits(c);
    assert "VEL" != "ABS" by { assert "VEL"[0] != "ABS"[0]; }
    assert "VEL" != "REL" by { assert "VEL"[0] != "REL"[0]; }
    ParseFormat(c.motor);
    ParseFormat(c.vel);
  }

  /** Status, reset and sensor requests have three fields, so writing them moves nothing. */
  lemma WriteThreeFields(pos: map<Key, int>, c: Command)
    requires c.Status? || c.Reset? || c.Sensor?
    ensures WriteEffect(pos, Encode(c)) == Ok(Apply(c, pos))
  {
    EncodeSplits(c);
    assert |Split(Encode(c), Sep)| == 3;
    WriteOtherShape(pos, Encode(c));
  }

  /** The controller's requests are understood exactly as the reference semantics says. */
  lemma WriteEncoded(c: Command, pos: map<Key, int>)
    ensures WriteEffect(pos, Encode(c)) == Ok(Apply(c, pos))
  {
    if c.Velocity? {
      WriteVel(pos, c);
    } else if c.MoveRel? {
      WriteRel(pos, c);
    } else if c.MoveAbs? {
      WriteAbs(pos, c);
    } else {
      WriteThreeFields(pos, c);
    }
  }

  /**
   * FakeSerial.read_until as a function of the last request and the
   * positions. A 3-field STPM ...:ST? request is answered '<pos>:1:0' when
   * its axis field, a str, is a key of pos and '0:1:0' otherwise (the two
   * branches differ only in the number printed, so they are written as one
   * here); a 3-field SENS ...:ST? request gets the synthetic sensor value;
   * anything else gets the empty string.
   */
  function ReplyTo(lastCmd: string, pos: map<Key, int>): Reply {
    var f := Split(lastCmd, Sep);
    if |f| == 3 && f[0] == "STPM" && f[2] == "ST?" then
      Line(FormatInt(if StrKey(f[1]) in pos then pos[StrKey(f[1])] else 0) + ":1:0")
    else if |f| == 3 && f[0] == "SENS" && f[2] == "ST?" then
      Coupling(pos)
    else
      Line("")
  }

  /**
   * The status lookup never hits: the emulator only stores int keys, so a
   * status request is answered '0:1:0' whatever moves came before it.
   */
  lemma StatusReplyIgnoresMoves(lastCmd: string, pos: map<Key, int>)
    requires IntKeysOnly(pos)
    requires |Split(lastCmd, Sep)| == 3 && Split(lastCmd, Sep)[0] == "STPM" && Split(lastCmd, Sep)[2] == "ST?"
    ensures ReplyTo(lastCmd, pos) == Line("0:1:0")
  {
    assert StrKey(Split(lastCmd, Sep)[1]) !in pos;
  }

  /**
   * Replies to each request the controller can send: a status request gets
   * '0:1:0', a sensor request the sensor value of the current positions, and
   * reset, velocity and move requests (which expect no reply) the empty string.
   */
  lemma ReplyToEncoded(c: Command, pos: map<Key, int>)
    requires IntKeysOnly(pos)
    ensures c.Status? ==> ReplyTo(Encode(c), pos) == Line("0:1:0")
    ensures c.Sensor? ==> ReplyTo(Encode(c), pos) == Coupling(pos)
    ensures !c.Status? && !c.Sensor? ==> ReplyTo(Encode(c), pos) == Line("")
  {
    EncodeSplits(c);
    if c.Status? {
      StatusReplyIgnoresMoves(Encode(c), pos);
    }
  }

  /** The fixed status reply decodes to [0, 1, 0]. */
  lemma IdleStatusDecodes()
    ensures ParseStatus("0:1:0") == Ok([0, 1, 0])
  {
    assert FormatStatus([0, 1, 0]) == "0:1:0";
    StatusRoundTrip([0, 1, 0]);
  }

  /** The emulator object. */
  class FakeSerial {
    const name: string
    var lastCmd: string
    var pos: map<Key, int>
    ghost var trace: seq<PortEvent>

    ghost predicate Valid()
      reads this
    {
      IntKeysOnly(pos)
    }

    constructor (name: string)
      ensures Valid()
      ensures this.name == name && lastCmd == "" && pos == map[] && trace == []
    {
      this.name := name;
      lastCmd := "";
      pos := map[];
      trace := [];
    }

    /**
     * Records cmd as the last request and applies it to the positions; on
     * success returns the number of bytes written. A 4-field STPM request
     * whose axis or value is not an integer raises ValueError after
     * last_cmd has been updated.
     */
    method Write(cmd: string) returns (n: Result<nat>)
      requires Valid()
      modifies this`lastCmd, this`pos, this`trace
      ensures Valid()
      ensures lastCmd == cmd && trace == old(trace) + [Wrote(cmd)]
      ensures WriteEffect(old(pos), cmd).Ok? ==> pos == WriteEffect(old(pos), cmd).value && n == Ok(Utf8Length(cmd))
      ensures WriteEffect(old(pos), cmd).ValueError? ==> pos == old(pos) && n == ValueError
    {
      lastCmd := cmd;
      trace := trace + [Wrote(cmd)];
      var split := Split(lastCmd, Sep);
      if |split| == 4 && split[0] == "STPM" {
        var key := ParseInt(split[1]);
        if key.ValueError? {
          return ValueError;
        }
        var val := ParseInt(split[3]);
        if val.ValueError? {
          return ValueError;
        }
        if split[2] == "ABS" {
          pos := pos[IntKey(key.value) := val.value];
        } else if split[2] == "REL" {
          if IntKey(key.value) in pos {
            pos := pos[IntKey(key.value) := pos[IntKey(key.value)] + val.value];
          } else {
            pos := pos[IntKey(key.value) := val.value];
          }
        }
      }
      n := Ok(Utf8Length(cmd));
    }

    /** Produces the reply to the last request; reading changes no state of the emulator. */
    method ReadUntil() returns (reply: Reply)
      modifies this`trace
      ensures reply == ReplyTo(lastCmd, pos)
      ensures trace == old(trace) + [ReadLine]
    {
      reply := ReplyTo(lastCmd, pos);
      trace := trace + [ReadLine];
    }

    method Flush()
      modifies this`trace
      ensures trace == old(trace) + [Flushed]
    {
      trace := trace + [Flushed];
    }

    /** Nothing to release. */
    method Close() {
    }
  }
}
