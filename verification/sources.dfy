/** The two ways a sample reaches the table: the `/update_sensor` push handler,
    which rejects a payload that does not convert with 400, and the serial
    reader, which decodes one text line at a time and skips any line that does
    not decode. Both hand a converted sample to the same `ApplySample`. */
module Sources {
  import opened Wrappers
  import opened Numbers
  import Text
  import opened Payload
  import opened Plants
  import opened Ingestion

  /** The push handler's conversions: `int(data["soilMoisture"])`,
      `float(data["temperature"])`, `float(data["humidity"])`. Any failure,
      a missing key or a body that is not an object included, rejects the
      whole payload. */
  function ValidatePayload(data: Json): (r: Option<SensorData>)
    ensures r.Some? <==>
      && Field(data, "soilMoisture").Some? && ToInt(Field(data, "soilMoisture").value).Some?
      && Field(data, "temperature").Some? && ToFloat(Field(data, "temperature").value).Some?
      && Field(data, "humidity").Some? && ToFloat(Field(data, "humidity").value).Some?
    ensures r.Some? ==>
      && r.value.soilMoisture == ToInt(data.fields["soilMoisture"]).value
      && r.value.temperature == ToFloat(data.fields["temperature"]).value
      && r.value.humidity == ToFloat(data.fields["humidity"]).value
  {
    match (Field(data, "soilMoisture"), Field(data, "temperature"), Field(data, "humidity"))
    case (Some(m), Some(t), Some(h)) =>
      (match (ToInt(m), ToFloat(t), ToFloat(h))
       case (Some(soil), Some(temp), Some(hum)) => Some(SensorData(soil, temp, hum))
       case _ => None)
    case _ => None
  }

  /** The push handler's answer: status, the table after, the notifications
      sent, and the reading echoed back on success. */
  datatype Pushed = Pushed(code: int, store: Store, sent: seq<Notification>, echoed: Option<SensorData>)

  /** `update_sensor`: a payload that does not convert is answered with 400
      before any plant is touched and nothing is sent; one that converts is
      applied to every plant and answered with 200 and the reading. */
  function UpdateSensor(s: Store, data: Json, now: real): (r: Pushed)
    requires Valid(s)
    ensures Valid(r.store)
    ensures ValidatePayload(data).None? ==> r.code == BadRequest && r.store == s && r.sent == [] && r.echoed == None
    ensures ValidatePayload(data).Some? ==>
      var sample := ValidatePayload(data).value;
      && r.code == Ok
      && r.echoed == Some(sample)
      && Applied(r.store, r.sent) == ApplySample(s, sample, now)
  {
    match ValidatePayload(data)
    case None => Pushed(BadRequest, s, [], None)
    case Some(sample) =>
      var applied := ApplySample(s, sample, now);
      Pushed(Ok, applied.store, applied.sent, Some(sample))
  }

  /** Each piece stripped: `[p.strip() for p in pieces]`. */
  function StripEach(pieces: seq<string>): (r: seq<string>)
    ensures |r| == |pieces|
    ensures forall k :: 0 <= k < |r| ==> r[k] == Text.Strip(pieces[k])
    decreases |pieces|
  {
    if |pieces| == 0 then [] else [Text.Strip(pieces[0])] + StripEach(pieces[1..])
  }

  /** Pieces that are already stripped stay as they are. */
  lemma {:induction false} StripEachStripped(pieces: seq<string>)
    requires forall k :: 0 <= k < |pieces| ==> Text.Strip(pieces[k]) == pieces[k]
    ensures StripEach(pieces) == pieces
    decreases |pieces|
  {
    if |pieces| > 0 {
      StripEachStripped(pieces[1..]);
      assert [pieces[0]] + pieces[1..] == pieces;
    }
  }

  /** The pieces of a line: stripped, split on commas, each piece stripped.
      There is one more field than the stripped line has commas, and every
      field is free of commas and of whitespace at either end. */
  function Fields(line: string): (parts: seq<string>)
    ensures |parts| == Text.Count(Text.Strip(line), ',') + 1
    ensures forall k :: 0 <= k < |parts| ==> Text.IsTrimmed(parts[k]) && ',' !in parts[k]
  {
    StripEach(Text.Split(Text.Strip(line), ','))
  }

  /** The serial reader's decoding of one line (the character decoding of the
      raw bytes aside). */
  function ParseLine(line: string): (r: Option<SensorData>)
    ensures r.Some? ==> |Text.Strip(line)| > 0 && |Fields(line)| == 3
  {
    if |Text.Strip(line)| == 0 then None
    else
      var parts := Fields(line);
      if |parts| != 3 then None
      else
        match (ParseInt(parts[0]), ParseFloat(parts[1]), ParseFloat(parts[2]))
        case (Some(soil), Some(temp), Some(hum)) => Some(SensorData(soil, temp, hum))
        case _ => None
  }

  /** A line yields a sample exactly when it is not blank after stripping, has
      exactly three comma-separated fields, and its first field converts with
      `int()` and the other two with `float()`; the sample holds those values
      in that order. Anything else is skipped. */
  lemma ParseLineDecodes(line: string)
    ensures ParseLine(line).Some? <==>
      && |Text.Strip(line)| > 0
      && |Fields(line)| == 3
      && ParseInt(Fields(line)[0]).Some?
      && ParseFloat(Fields(line)[1]).Some?
      && ParseFloat(Fields(line)[2]).Some?
    ensures ParseLine(line).Some? ==>
      ParseLine(line).value
        == SensorData(ParseInt(Fields(line)[0]).value, ParseFloat(Fields(line)[1]).value, ParseFloat(Fields(line)[2]).value)
  {
  }

  /** A line that does not split into exactly three fields is skipped. */
  lemma WrongFieldCountSkipped(line: string)
    requires Text.Count(Text.Strip(line), ',') != 2
    ensures ParseLine(line) == None
  {
  }

  /** What the reader does with one line: a line that decodes is applied like
      a pushed sample; any other line leaves the table as it was and sends
      nothing, and the reader goes on with the next line. */
  function SerialStep(s: Store, line: string, now: real): (r: Applied)
    requires Valid(s)
    ensures Valid(r.store)
    ensures ParseLine(line).None? ==> r == Applied(s, [])
    ensures ParseLine(line).Some? ==> r == ApplySample(s, ParseLine(line).value, now)
  {
    match ParseLine(line)
    case None => Applied(s, [])
    case Some(sample) => ApplySample(s, sample, now)
  }

  /** One line read from the device, with the clock reading when it was handled. */
  datatype Received = Received(line: string, now: real)

  /** The reader's inner loop over the lines it receives: the final table and
      every notification sent on the way, in order. */
  function SerialRun(s: Store, input: seq<Received>): (r: Applied)
    requires Valid(s)
    ensures Valid(r.store)
    ensures r.store.counter == s.counter && r.store.plants.Keys == s.plants.Keys
    decreases |input|
  {
    if |input| == 0 then Applied(s, [])
    else
      var first := SerialStep(s, input[0].line, input[0].now);
      var rest := SerialRun(first.store, input[1..]);
      Applied(rest.store, first.sent + rest.sent)
  }

  /** The lines of a run that decode. */
  function Decodable(input: seq<Received>): (r: seq<Received>)
    ensures |r| <= |input|
    decreases |input|
  {
    if |input| == 0 then []
    else (if ParseLine(input[0].line).Some? then [input[0]] else []) + Decodable(input[1..])
  }

  /** Garbled lines have no effect at all: a run gives the same table and the
      same notifications as the run of its decodable lines alone. */
  lemma {:induction false} GarbledLinesIgnored(s: Store, input: seq<Received>)
    requires Valid(s)
    ensures SerialRun(s, input) == SerialRun(s, Decodable(input))
    decreases |input|
  {
    if |input| > 0 {
      var first := SerialStep(s, input[0].line, input[0].now);
      GarbledLinesIgnored(first.store, input[1..]);
      if ParseLine(input[0].line).Some? {
        var d := Decodable(input);
        assert d == [input[0]] + Decodable(input[1..]);
        assert d[0] == input[0] && d[1..] == Decodable(input[1..]);
      } else {
        assert Decodable(input) == Decodable(input[1..]);
        assert first == Applied(s, []);
      }
    }
  }

  /** What the device prints for a reading of whole numbers (with the line
      end the device sends) decodes to that reading, as long as the moisture
      has no more digits than `int()` converts; otherwise it is skipped. */
  lemma LineRoundTrip(soil: int, temp: int, hum: int)
    ensures ParseLine(IntText(soil) + "," + IntText(temp) + "," + IntText(hum) + "\r\n")
         == if |NatText(if soil < 0 then -soil else soil)| <= MaxStrDigits
            then Some(SensorData(soil, Finite(temp as real), Finite(hum as real)))
            else None
  {
    var a, b, c := IntText(soil), IntText(temp), IntText(hum);
    var line := a + "," + b + "," + c + "\r\n";
    PrintedFields(soil, temp, hum);
    IntRoundTrip(soil);
    FloatOfIntText(temp);
    FloatOfIntText(hum);
    ParseLineOfFields(line, a, b, c);
  }

  /** A line whose fields are known decodes from them. */
  lemma ParseLineOfFields(line: string, a: string, b: string, c: string)
    requires |Text.Strip(line)| > 0
    requires Fields(line) == [a, b, c]
    ensures ParseLine(line) == (
      match (ParseInt(a), ParseFloat(b), ParseFloat(c))
      case (Some(soil), Some(temp), Some(hum)) => Some(SensorData(soil, temp, hum))
      case _ => None)
  {
  }

  /** The fields of a printed reading are the three numbers' texts. */
  lemma PrintedFields(soil: int, temp: int, hum: int)
    ensures var a, b, c := IntText(soil), IntText(temp), IntText(hum);
      var line := a + "," + b + "," + c + "\r\n";
      |Text.Strip(line)| > 0 && Fields(line) == [a, b, c]
  {
    IntTextShape(soil);
    IntTextShape(temp);
    IntTextShape(hum);
    IntTextNoComma(soil);
    IntTextNoComma(temp);
    IntTextNoComma(hum);
    FieldsOfJoined(IntText(soil), IntText(temp), IntText(hum));
  }

  /** Three comma-free, already stripped texts joined by commas and ended by
      CR LF come back as the three fields. */
  lemma FieldsOfJoined(a: string, b: string, c: string)
    requires Text.IsTrimmed(a) && Text.IsTrimmed(b) && Text.IsTrimmed(c)
    requires |a| > 0 && |c| > 0
    requires ',' !in a && ',' !in b && ',' !in c
    ensures var line := a + "," + b + "," + c + "\r\n";
      |Text.Strip(line)| > 0 && Fields(line) == [a, b, c]
  {
    var body := a + "," + b + "," + c;
    var line := body + "\r\n";
    JoinedLineStrips(a, b, c);
    assert Text.Split(body, ',') == [a, b, c] by {
      SplitOfJoined(a, b, c);
    }
    var pieces := [a, b, c];
    assert forall k :: 0 <= k < |pieces| ==> Text.Strip(pieces[k]) == pieces[k] by {
      Text.StripTrimmed(a);
      Text.StripTrimmed(b);
      Text.StripTrimmed(c);
    }
    FieldsOfPieces(line, body, pieces);
  }

  lemma JoinedLineStrips(a: string, b: string, c: string)
    requires Text.IsTrimmed(a) && Text.IsTrimmed(c)
    requires |a| > 0 && |c| > 0
    ensures Text.Strip(a + "," + b + "," + c + "\r\n") == a + "," + b + "," + c
  {
    var body := a + "," + b + "," + c;
    assert body[0] == a[0];
    assert body[|body| - 1] == c[|c| - 1];
    StripLineEnd(body);
  }

  /** A line that strips to `body`, whose comma pieces are already stripped,
      has those pieces as its fields. */
  lemma FieldsOfPieces(line: string, body: string, pieces: seq<string>)
    requires Text.Strip(line) == body && Text.Split(body, ',') == pieces
    requires forall k :: 0 <= k < |pieces| ==> Text.Strip(pieces[k]) == pieces[k]
    ensures Fields(line) == pieces
  {
    StripEachStripped(pieces);
  }

  lemma SplitOfJoined(a: string, b: string, c: string)
    requires ',' !in a && ',' !in b && ',' !in c
    ensures Text.Split(a + "," + b + "," + c, ',') == [a, b, c]
  {
    Text.SplitNoSeparator(c, ',');
    Text.SplitAtSeparator(b, ',', c);
    assert b + "," + c == b + [','] + c;
    Text.SplitAtSeparator(a, ',', b + "," + c);
    assert a + "," + b + "," + c == a + [','] + (b + "," + c);
  }

  lemma IntTextNoComma(n: int)
    ensures ',' !in IntText(n)
  {
    var t := IntText(n);
    var d := NatText(if n < 0 then -n else n);
    assert forall k :: 0 <= k < |d| ==> IsDigit(d[k]);
    if n < 0 {
      assert forall k :: 1 <= k < |t| ==> t[k] == d[k - 1];
    }
  }

  /** Stripping removes the CR LF the device ends each line with. */
  lemma StripLineEnd(body: string)
    requires Text.IsTrimmed(body) && |body| > 0
    ensures Text.Strip(body + "\r\n") == body
  {
    var line := body + "\r\n";
    assert line[0] == body[0];
    assert line[|body| - 1] == body[|body| - 1];
    assert line[|body|] == '\r' && line[|body| + 1] == '\n';
    Text.SkipBackAt(line, |line|, |body|, Text.SpaceChars);
    assert line[0..|body|] == body;
  }

  /** A line that is empty or only whitespace is skipped. */
  lemma BlankLineSkipped(line: string)
    requires Text.AllSpace(line)
    ensures ParseLine(line) == None
  {
    Text.StripAllSpace(line);
  }

  /** A JSON object holding a reading's three values under the three keys
      (moisture as a JSON integer, the other two as JSON floats) converts
      back to exactly that reading, whatever other keys it has. */
  lemma PayloadRoundTrip(x: SensorData, fields: map<string, Json>)
    requires "soilMoisture" in fields && fields["soilMoisture"] == JInt(x.soilMoisture)
    requires "temperature" in fields && fields["temperature"] == JFloat(x.temperature)
    requires "humidity" in fields && fields["humidity"] == JFloat(x.humidity)
    ensures ValidatePayload(JObject(fields)) == Some(x)
  {
  }

  /** A body that is not an object, or lacks one of the three keys, is
      answered with 400 and changes nothing. */
  lemma MissingFieldRejected(s: Store, data: Json, now: real)
    requires Valid(s)
    requires !data.JObject?
      || "soilMoisture" !in data.fields || "temperature" !in data.fields || "humidity" !in data.fields
    ensures var r := UpdateSensor(s, data, now);
      r.code == BadRequest && r.store == s && r.sent == [] && r.echoed == None
  {
  }

  /** A moisture text `int()` refuses makes the whole payload 400 with no
      change, whatever the other fields hold. */
  lemma UnreadableMoistureRejected(s: Store, fields: map<string, Json>, now: real)
    requires Valid(s)
    requires "soilMoisture" in fields && ToInt(fields["soilMoisture"]).None?
    ensures var r := UpdateSensor(s, JObject(fields), now);
      r.code == BadRequest && r.store == s && r.sent == [] && r.echoed == None
  {
  }

  /** `{"soilMoisture": "wet"}` is answered with 400 and changes nothing. */
  lemma WetWordRejected(s: Store, now: real)
    requires Valid(s)
    ensures var r := UpdateSensor(s, JObject(map["soilMoisture" := JString("wet")]), now);
      r.code == BadRequest && r.store == s && r.sent == []
  {
    MissingFieldRejected(s, JObject(map["soilMoisture" := JString("wet")]), now);
  }

  /** A pushed moisture text led by an information separator is refused,
      although a device line with the same field would have it stripped. */
  lemma SeparatorLedMoistureRejected(s: Store, fields: map<string, Json>, text: string, now: real)
    requires Valid(s)
    requires "soilMoisture" in fields && fields["soilMoisture"] == JString(text)
    requires |text| > 0 && text[0] in InfoSeparators
    ensures var r := UpdateSensor(s, JObject(fields), now);
      r.code == BadRequest && r.store == s && r.sent == []
  {
    SeparatorLedRejected(text);
  }
}
