/**
 * The colon-delimited ASCII protocol of the MKM stepper firmware, as the
 * stepper controller writes it: one request per call, fields separated by ':',
 * integers printed in decimal, status replies parsed back into integers.
 */
module Protocol {
  import opened PyText

  const Sep: char := ':'

  /** The requests the stepper controller can send. */
  datatype Command =
    | Status(motor: int)
    | Reset(motor: int)
    | Velocity(motor: int, vel: int)
    | MoveRel(motor: int, steps: int)
    | MoveAbs(motor: int, steps: int)
    | Sensor(sensor: int)

  /** The request text, as the controller's format strings build it. */
  function Encode(c: Command): string {
    match c
    case Status(m) => "STPM:" + FormatInt(m) + ":ST?"
    case Reset(m) => "STPM:" + FormatInt(m) + ":RST"
    case Velocity(m, v) => "STPM:" + FormatInt(m) + ":VEL:" + FormatInt(v)
    case MoveRel(m, s) => "STPM:" + FormatInt(m) + ":REL:" + FormatInt(s)
    case MoveAbs(m, s) => "STPM:" + FormatInt(m) + ":ABS:" + FormatInt(s)
    case Sensor(s) => "SENS:" + FormatInt(s) + ":ST?"
  }

  /** The fields a receiver sees after splitting a request on ':'. */
  function Fields(c: Command): seq<string> {
    match c
    case Status(m) => ["STPM", FormatInt(m), "ST?"]
    case Reset(m) => ["STPM", FormatInt(m), "RST"]
    case Velocity(m, v) => ["STPM", FormatInt(m), "VEL", FormatInt(v)]
    case MoveRel(m, s) => ["STPM", FormatInt(m), "REL", FormatInt(s)]
    case MoveAbs(m, s) => ["STPM", FormatInt(m), "ABS", FormatInt(s)]
    case Sensor(s) => ["SENS", FormatInt(s), "ST?"]
  }

  lemma FormatIntIsPlain(n: int)
    ensures Sep !in FormatInt(n) && IsAscii(FormatInt(n))
  {
    var s := FormatInt(n);
    forall i | 0 <= i < |s| ensures s[i] != Sep && s[i] as int < 0x80 {
      assert IsDigit(s[i]) || s[i] == '-';
    }
  }

  lemma AsciiConcat(a: string, b: string)
    requires IsAscii(a) && IsAscii(b)
    ensures IsAscii(a + b)
  {
    assert forall i :: 0 <= i < |a + b| ==> (a + b)[i] == if i < |a| then a[i] else b[i - |a|];
  }

  lemma SplitThree(a: string, b: string, c: string)
    requires Sep !in a && Sep !in b && Sep !in c
    ensures Split(a + [Sep] + b + [Sep] + c, Sep) == [a, b, c]
  {
    assert a + [Sep] + b + [Sep] + c == a + [Sep] + (b + [Sep] + c);
    SplitAtFirstSeparator(a, Sep, b + [Sep] + c);
    SplitAtFirstSeparator(b, Sep, c);
    SplitWithoutSeparator(c, Sep);
  }

  lemma SplitFour(a: string, b: string, c: string, d: string)
    requires Sep !in a && Sep !in b && Sep !in c && Sep !in d
    ensures Split(a + [Sep] + b + [Sep] + c + [Sep] + d, Sep) == [a, b, c, d]
  {
    assert a + [Sep] + b + [Sep] + c + [Sep] + d == a + [Sep] + (b + [Sep] + c + [Sep] + d);
    SplitAtFirstSeparator(a, Sep, b + [Sep] + c + [Sep] + d);
    SplitThree(b, c, d);
  }

  /** A request of the shape head + ':' + n + ':' + verb, written as the format string writes it. */
  lemma EncodeThree(head: string, m: int, verb: string, prefix: string, suffix: string)
    requires prefix == head + [Sep] && suffix == [Sep] + verb
    requires Sep !in head && Sep !in verb && IsAscii(prefix) && IsAscii(suffix)
    ensures IsAscii(prefix + FormatInt(m) + suffix)
    ensures Split(prefix + FormatInt(m) + suffix, Sep) == [head, FormatInt(m), verb]
  {
    FormatIntIsPlain(m);
    assert prefix + FormatInt(m) + suffix == head + [Sep] + FormatInt(m) + [Sep] + verb;
    SplitThree(head, FormatInt(m), verb);
    AsciiConcat(prefix, FormatInt(m));
    AsciiConcat(prefix + FormatInt(m), suffix);
  }

  /** A request of the shape 'STPM:' + m + ':' + verb + ':' + v. */
  lemma EncodeFour(m: int, verb: string, infix: string, v: int)
    requires infix == [Sep] + verb + [Sep] && Sep !in verb && IsAscii(infix)
    ensures IsAscii("STPM:" + FormatInt(m) + infix + FormatInt(v))
    ensures Split("STPM:" + FormatInt(m) + infix + FormatInt(v), Sep) == ["STPM", FormatInt(m), verb, FormatInt(v)]
  {
    FormatIntIsPlain(m);
    FormatIntIsPlain(v);
    assert "STPM:" + FormatInt(m) + infix + FormatInt(v) == "STPM" + [Sep] + FormatInt(m) + [Sep] + verb + [Sep] + FormatInt(v);
    SplitFour("STPM", FormatInt(m), verb, FormatInt(v));
    AsciiConcat("STPM:", FormatInt(m));
    AsciiConcat("STPM:" + FormatInt(m), infix);
    AsciiConcat("STPM:" + FormatInt(m) + infix, FormatInt(v));
  }

  /**
   * Every request is plain ASCII (so its UTF-8 byte length is its length) and
   * splits on ':' into exactly its fields: the integers never contain a ':'.
   */
  lemma EncodeSplits(c: Command)
    ensures IsAscii(Encode(c))
    ensures Split(Encode(c), Sep) == Fields(c)
  {
    match c {
      case Status(m) => EncodeThree("STPM", m, "ST?", "STPM:", ":ST?");
      case Reset(m) => EncodeThree("STPM", m, "RST", "STPM:", ":RST");
      case Sensor(m) => EncodeThree("SENS", m, "ST?", "SENS:", ":ST?");
      case Velocity(m, v) => EncodeFour(m, "VEL", ":VEL:", v);
      case MoveRel(m, v) => EncodeFour(m, "REL", ":REL:", v);
      case MoveAbs(m, v) => EncodeFour(m, "ABS", ":ABS:", v);
    }
  }

  /** [int(f) for f in fields]: ValueError as soon as one field is not an integer. */
  function ParseAll(fields: seq<string>): (r: Result<seq<int>>)
    ensures r.Ok? <==> forall i :: 0 <= i < |fields| ==> ParseInt(fields[i]).Ok?
    ensures r.Ok? ==> |r.value| == |fields|
    ensures r.Ok? ==> forall i :: 0 <= i < |fields| ==> ParseInt(fields[i]) == Ok(r.value[i])
  {
    if fields == [] then Ok([])
    else
      match ParseInt(fields[0])
      case ValueError => ValueError
      case Ok(x) =>
        match ParseAll(fields[1..])
        case ValueError => ValueError
        case Ok(xs) => Ok([x] + xs)
  }

  /** The status reply decoded as get_status decodes it: split on ':' and int() every field. */
  function ParseStatus(reply: string): Result<seq<int>> {
    ParseAll(Split(reply, Sep))
  }

  /** A status reply as a device prints it: the integers in decimal, ':' between them. */
  function FormatStatus(fields: seq<int>): (reply: string)
    requires |fields| >= 1
    decreases |fields|
  {
    if |fields| == 1 then FormatInt(fields[0])
    else FormatInt(fields[0]) + [Sep] + FormatStatus(fields[1..])
  }

  /** Decoding a printed status reply gives back exactly the printed integers. */
  lemma {:induction false} StatusRoundTrip(fields: seq<int>)
    requires |fields| >= 1
    ensures ParseStatus(FormatStatus(fields)) == Ok(fields)
    decreases |fields|
  {
    ParseFormat(fields[0]);
    FormatIntIsPlain(fields[0]);
    if |fields| == 1 {
      var f := FormatInt(fields[0]);
      SplitWithoutSeparator(f, Sep);
      assert ParseInt([f][0]).Ok?;
      var r := ParseAll([f]);
      assert r.Ok? && |r.value| == 1 && r.value[0] == fields[0];
      assert r.value == fields;
      assert FormatStatus(fields) == f;
    } else {
      var head := FormatInt(fields[0]);
      var rest := FormatStatus(fields[1..]);
      StatusRoundTrip(fields[1..]);
      SplitAtFirstSeparator(head, Sep, rest);
      var pieces := [head] + Split(rest, Sep);
      assert Split(FormatStatus(fields), Sep) == pieces;
      assert pieces[0] == head && pieces[1..] == Split(rest, Sep);
      assert ParseAll(pieces) == Ok([fields[0]] + fields[1..]);
      assert [fields[0]] + fields[1..] == fields;
    }
  }
}
