/** The attribute reports of a Green Power frame: the parser of concatenated reports accepts exactly the
    concatenations of well-formed reports, and every such payload has one reading. */
module ClusterReport {

  newtype byte = x: int | 0 <= x < 256

  const ZCL_BOOLEAN: byte := 0x10
  const ZCL_INT8U: byte := 0x20
  const ZCL_INT16U: byte := 0x21
  const ZCL_INT16S: byte := 0x29
  const ZCL_CHAR_STRING: byte := 0x42

  // ----- What a report is

  datatype Report =
    | SwBuildId(text: seq<byte>)          // cluster 0x0000, attribute 0x4000
    | BatteryVoltage(value: byte)         // cluster 0x0001, attribute 0x0020
    | PresentValue(value: byte)           // cluster 0x000F, attribute 0x0055
    | Temperature(lo: byte, hi: byte)     // cluster 0x0402, attribute 0x0000
    | Humidity(lo: byte, hi: byte)        // cluster 0x0405, attribute 0x0000

  predicate WellFormed(r: Report) { r.SwBuildId? ==> |r.text| < 256 }

  // Cluster, attribute, both least significant byte first, type, value.
  function Encode(r: Report): (s: seq<byte>)
    requires WellFormed(r)
    ensures 6 <= |s| <= 261
  {
    match r
    case SwBuildId(text) => [0x00, 0x00, 0x00, 0x40, 0x42, |text| as byte] + text
    case BatteryVoltage(v) => [0x01, 0x00, 0x20, 0x00, 0x20, v]
    case PresentValue(v) => [0x0F, 0x00, 0x55, 0x00, 0x10, v]
    case Temperature(lo, hi) => [0x02, 0x04, 0x00, 0x00, 0x29, lo, hi]
    case Humidity(lo, hi) => [0x05, 0x04, 0x00, 0x00, 0x21, lo, hi]
  }

  predicate AllWellFormed(rs: seq<Report>) { forall i :: 0 <= i < |rs| ==> WellFormed(rs[i]) }

  function EncodeAll(rs: seq<Report>): seq<byte>
    requires AllWellFormed(rs)
  {
    if rs == [] then [] else Encode(rs[0]) + EncodeAll(rs[1..])
  }

  // ----- The parser's view

  datatype Option<T> = None | Some(value: T)

  // The report at the beginning of a payload, by the source's tests.
  function First(p: seq<byte>): (r: Option<Report>)
    ensures r.Some? ==> WellFormed(r.value)
  {
    if |p| < 5 then None
    else
      var clusterId := 256 * p[1] as int + p[0] as int;
      var attributeId := 256 * p[3] as int + p[2] as int;
      var ty := p[4];
      if clusterId == 0x0000 then
        if attributeId == 0x4000 && ty == ZCL_CHAR_STRING && |p| >= 6 && |p| >= 6 + p[5] as int
        then Some(SwBuildId(p[6..6 + p[5] as int])) else None
      else if clusterId == 0x000F then
        if attributeId == 0x0055 && ty == ZCL_BOOLEAN && |p| >= 6 then Some(PresentValue(p[5])) else None
      else if clusterId == 0x0402 then
        if attributeId == 0x0000 && ty == ZCL_INT16S && |p| >= 7 then Some(Temperature(p[5], p[6])) else None
      else if clusterId == 0x0405 then
        if attributeId == 0x0000 && ty == ZCL_INT16U && |p| >= 7 then Some(Humidity(p[5], p[6])) else None
      else if clusterId == 0x0001 then
        if attributeId == 0x0020 && ty == ZCL_INT8U && |p| >= 6 then Some(BatteryVoltage(p[5])) else None
      else None
  }

  // A payload begins with a report exactly when the parser finds it there.
  lemma FirstIsPrefix(p: seq<byte>, r: Report)
    requires WellFormed(r)
    ensures First(p) == Some(r) <==> Encode(r) <= p
  {
    if First(p) == Some(r) {
      StartsWith(p, r);
    }
    if Encode(r) <= p {
      Found(p, r);
    }
  }

  lemma StartsWith(p: seq<byte>, r: Report)
    requires First(p) == Some(r)
    ensures Encode(r) <= p
  {
    var n := |Encode(r)|;
    assert p == p[..n] + p[n..];
    match r
    case SwBuildId(text) => assert p[..n] == [p[0], p[1], p[2], p[3], p[4], p[5]] + text;
    case BatteryVoltage(v) => assert p[..n] == [p[0], p[1], p[2], p[3], p[4], p[5]];
    case PresentValue(v) => assert p[..n] == [p[0], p[1], p[2], p[3], p[4], p[5]];
    case Temperature(lo, hi) => assert p[..n] == [p[0], p[1], p[2], p[3], p[4], p[5], p[6]];
    case Humidity(lo, hi) => assert p[..n] == [p[0], p[1], p[2], p[3], p[4], p[5], p[6]];
  }

  lemma Found(p: seq<byte>, r: Report)
    requires WellFormed(r) && Encode(r) <= p
    ensures First(p) == Some(r)
  {
    var e := Encode(r);
    assert p[0] == e[0] && p[1] == e[1] && p[2] == e[2] && p[3] == e[3] && p[4] == e[4] && p[5] == e[5];
    match r
    case SwBuildId(text) => assert text == e[6..] == p[6..6 + |text|];
    case Temperature(lo, hi) => assert p[6] == e[6];
    case Humidity(lo, hi) => assert p[6] == e[6];
    case _ =>
  }

  // Cutting the payload into reports, from the front.
  function Parse(p: seq<byte>): (rs: Option<seq<Report>>)
    ensures rs.Some? ==> AllWellFormed(rs.value)
    decreases |p|
  {
    if p == [] then Some([])
    else match First(p)
      case None => None
      case Some(r) =>
        FirstIsPrefix(p, r);
        match Parse(p[|Encode(r)|..])
        case None => None
        case Some(rs) => Some([r] + rs)
  }

  // Parsing and concatenating undo each other, on all payloads: a payload is accepted exactly when it is
  // a concatenation of well-formed reports, and then of one list of them only.
  lemma {:induction false} ParseInvertsEncode(p: seq<byte>, rs: seq<Report>)
    requires AllWellFormed(rs)
    ensures Parse(p) == Some(rs) <==> p == EncodeAll(rs)
    decreases |p|, |rs|
  {
    if rs == [] {
    } else if p != [] {
      var r := rs[0];
      FirstIsPrefix(p, r);
      if Encode(r) <= p {
        var rest := p[|Encode(r)|..];
        ParseInvertsEncode(rest, rs[1..]);
        assert p == Encode(r) + rest;
        assert rs == [r] + rs[1..];
      } else {
        assert Encode(r) <= EncodeAll(rs);
      }
    }
  }

  // ----- The source's loop

  // usedBytes is a uint8_t: a string report of 256 bytes or more would be counted modulo 256.
  method ExtractClusterReport(payload: seq<byte>) returns (ok: bool, usedBytes: byte)
    ensures ok == First(payload).Some?
    ensures usedBytes as int == if ok then |Encode(First(payload).value)| % 256 else 0
  {
    ok, usedBytes := false, 0;
    if |payload| < 5 { return; }
    var clusterId := 256 * payload[1] as int + payload[0] as int;
    var attributeId := 256 * payload[3] as int + payload[2] as int;
    var ty := payload[4];
    if clusterId == 0x0000 {
      if attributeId == 0x4000 && ty == ZCL_CHAR_STRING {
        if |payload| >= 6 {
          var strLength := payload[5];
          if |payload| < 6 + strLength as int { return; }
          usedBytes := ((6 + strLength as int) % 256) as byte;
          ok := true;
        }
      }
    } else if clusterId == 0x000F {
      if attributeId == 0x0055 && ty == ZCL_BOOLEAN {
        if |payload| >= 6 { ok, usedBytes := true, 6; }
      }
    } else if clusterId == 0x0402 {
      if attributeId == 0x0000 && ty == ZCL_INT16S {
        if |payload| >= 7 { ok, usedBytes := true, 7; }
      }
    } else if clusterId == 0x0405 {
      if attributeId == 0x0000 && ty == ZCL_INT16U {
        if |payload| >= 7 { ok, usedBytes := true, 7; }
      }
    } else if clusterId == 0x0001 {
      if attributeId == 0x0020 && ty == ZCL_INT8U {
        if |payload| >= 6 { ok, usedBytes := true, 6; }
      }
    }
  }

  // The payload of a Green Power frame has at most 255 bytes, its length being one byte.
  method ExtractMultiClusterReport(payload: seq<byte>) returns (validBuffer: bool)
    requires |payload| <= 255
    ensures validBuffer <==> exists rs :: AllWellFormed(rs) && payload == EncodeAll(rs)
  {
    hide Encode, EncodeAll;
    var rest := payload;
    var usedBytes;
    validBuffer := true;
    while |rest| > 0 && validBuffer
      invariant |rest| <= 255
      invariant Parse(payload).Some? <==> validBuffer && Parse(rest).Some?
      decreases |rest|, validBuffer
    {
      validBuffer, usedBytes := ExtractClusterReport(rest);
      if validBuffer {
        FirstIsPrefix(rest, First(rest).value);
        rest := rest[usedBytes as int..];
      }
    }
    Decided(payload);
  }

  lemma Decided(payload: seq<byte>)
    ensures Parse(payload).Some? <==> exists rs :: AllWellFormed(rs) && payload == EncodeAll(rs)
  {
    hide Encode, EncodeAll, Parse;
    if Parse(payload).Some? {
      ParseInvertsEncode(payload, Parse(payload).value);
    }
    if rs :| AllWellFormed(rs) && payload == EncodeAll(rs) {
      ParseInvertsEncode(payload, rs);
    }
  }

  // The count of used bytes is the length of the report exactly when that is below 256: always for a
  // payload of at most 255 bytes, and not for a string of 250 bytes or more, of which one of 250 bytes
  // would be read over and over again.
  lemma UsedBytesExact(payload: seq<byte>)
    requires First(payload).Some?
    ensures var r := First(payload).value;
            (|Encode(r)| % 256 == |Encode(r)| <==> (r.SwBuildId? ==> |r.text| < 250)) &&
            (|payload| <= 255 ==> 6 <= |Encode(r)| <= |payload|) &&
            (r.SwBuildId? && |r.text| == 250 ==> |Encode(r)| % 256 == 0)
  {
    FirstIsPrefix(payload, First(payload).value);
  }
}
