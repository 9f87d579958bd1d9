/**
 * The sensor frame `{<timestamp>;<intensity>;<voltage>}` published by the
 * street-light node, and the decoding half of the MQTT message callback.
 *
 * Python's `float()` and `datetime.strptime(.., "%Y-%m-%d %H:%M:%S")` are
 * not modelled: the decoder takes them as the parameters `parseNumber` and
 * `parseTime`, which give `None` where the Python call raises.
 */
module Frame {
  import opened Wrappers
  import opened Text

  /** A point in time on a fixed clock; later points are larger. */
  type Timestamp = int

  /** Relay state: "AKTIF" (`RelayActive`), "MATI" (`RelayOff`) or
      "UNKNOWN" (`RelayUnknown`). */
  datatype RelayState = RelayActive | RelayOff | RelayUnknown

  /** Lamp state: "MENYALA", "MATI" or "UNKNOWN". */
  datatype LampState = LampOn | LampOff | LampUnknown {
    function Label(): string {
      match this
      case LampOn => "MENYALA"
      case LampOff => "MATI"
      case LampUnknown => "UNKNOWN"
    }
  }

  /** The source tag every decoded row carries. */
  const LiveSource := "MQTT REAL"

  /** One row of the reading log. */
  datatype Row = Row(
    timestamp: Timestamp,
    intensity: Option<real>,
    voltage: Option<real>,
    relay: RelayState,
    lamp: LampState,
    source: string)

  /** The three raw fields of a frame, before trimming. */
  datatype RawFields = RawFields(timestamp: string, intensity: string, voltage: string)

  /** The frame a sensor node sends for the three fields. */
  function Render(timestamp: string, intensity: string, voltage: string): string {
    "{" + timestamp + ";" + intensity + ";" + voltage + "}"
  }

  lemma RenderJoin(t: string, i: string, v: string)
    ensures Render(t, i, v) == "{" + Join([t, i, v], ';') + "}"
  {
    JoinThree(t, i, v, ';');
    assert "{" + t + ";" + i + ";" + v + "}" == "{" + (t + ";" + i + ";" + v) + "}";
  }

  /** The text between the braces, when the payload starts with `{` and ends with `}`. */
  function Unwrap(payload: string): (inner: Option<string>)
    ensures inner.Some? <==> |payload| > 0 && payload[0] == '{' && payload[|payload| - 1] == '}'
    ensures inner.Some? ==> payload == "{" + inner.value + "}"
  {
    if |payload| > 0 && payload[0] == '{' && payload[|payload| - 1] == '}' then
      Some(payload[1..|payload| - 1])
    else
      None
  }

  /** The braces are present and the inner text splits on `;` into exactly
      three parts; those parts are then the fields of the payload. */
  function Fields(payload: string): (r: Option<RawFields>)
    ensures r.Some? <==> Unwrap(payload).Some? && multiset(Unwrap(payload).value)[';'] == 2
    ensures r.Some? ==>
      && payload == Render(r.value.timestamp, r.value.intensity, r.value.voltage)
      && ';' !in r.value.timestamp && ';' !in r.value.intensity && ';' !in r.value.voltage
  {
    match Unwrap(payload)
    case None => None
    case Some(inner) =>
      var parts := Split(inner, ';');
      if |parts| == 3 then
        assert parts == [parts[0], parts[1], parts[2]];
        RenderJoin(parts[0], parts[1], parts[2]);
        Some(RawFields(parts[0], parts[1], parts[2]))
      else
        None
  }

  /** Every frame built from three `;`-free fields is accepted with exactly those fields. */
  lemma FieldsOfRender(t: string, i: string, v: string)
    requires ';' !in t && ';' !in i && ';' !in v
    ensures Fields(Render(t, i, v)) == Some(RawFields(t, i, v))
  {
    var parts := [t, i, v];
    RenderJoin(t, i, v);
    var payload := Render(t, i, v);
    assert payload == "{" + Join(parts, ';') + "}";
    assert payload[1..|payload| - 1] == Join(parts, ';');
    SplitJoin(parts, ';');
  }

  /** Relay and lamp state follow from the voltage alone: exactly 0.0 means
      the relay is off and the lamp lit, exactly 220.0 the relay active and
      the lamp dark, anything else (absent included) is unknown. */
  function DeriveStates(voltage: Option<real>): (r: (RelayState, LampState))
    ensures r.0 == RelayOff <==> voltage == Some(0.0)
    ensures r.0 == RelayActive <==> voltage == Some(220.0)
    ensures r.1 == LampOn <==> r.0 == RelayOff
    ensures r.1 == LampOff <==> r.0 == RelayActive
  {
    if voltage == Some(0.0) then (RelayOff, LampOn)
    else if voltage == Some(220.0) then (RelayActive, LampOff)
    else (RelayUnknown, LampUnknown)
  }

  /** A row as the decoder produces it: live source tag, states derived from voltage. */
  ghost predicate WellFormed(row: Row) {
    && row.source == LiveSource
    && (row.relay, row.lamp) == DeriveStates(row.voltage)
  }

  /** The parsing half of `on_message`: `None` for a payload that is dropped. */
  function Decode(payload: string, now: Timestamp,
                  parseNumber: string -> Option<real>,
                  parseTime: string -> Option<Timestamp>): (r: Option<Row>)
    ensures r.Some? <==> Fields(payload).Some?
    ensures r.Some? ==> WellFormed(r.value)
    ensures r.Some? ==>
      var f := Fields(payload).value;
      && r.value.intensity == parseNumber(Strip(f.intensity))
      && r.value.voltage == parseNumber(Strip(f.voltage))
      && r.value.timestamp == parseTime(Strip(f.timestamp)).GetOr(now)
  {
    match Fields(payload)
    case None => None
    case Some(f) =>
      var timestamp := parseTime(Strip(f.timestamp)).GetOr(now);
      var intensity := parseNumber(Strip(f.intensity));
      var voltage := parseNumber(Strip(f.voltage));
      var (relay, lamp) := DeriveStates(voltage);
      Some(Row(timestamp, intensity, voltage, relay, lamp, LiveSource))
  }

  /** Decoding a rendered frame yields the row built from its trimmed fields. */
  lemma DecodeRender(t: string, i: string, v: string, now: Timestamp,
                     parseNumber: string -> Option<real>,
                     parseTime: string -> Option<Timestamp>)
    requires ';' !in t && ';' !in i && ';' !in v
    ensures
      var voltage := parseNumber(Strip(v));
      Decode(Render(t, i, v), now, parseNumber, parseTime) == Some(Row(
        parseTime(Strip(t)).GetOr(now), parseNumber(Strip(i)), voltage,
        DeriveStates(voltage).0, DeriveStates(voltage).1, LiveSource))
  {
    FieldsOfRender(t, i, v);
  }

  /** A payload without the opening or the closing brace is dropped; there is
      no outer trim, so trailing whitespace after `}` is enough to drop it. */
  lemma RejectsUnbraced(payload: string, now: Timestamp,
                        parseNumber: string -> Option<real>,
                        parseTime: string -> Option<Timestamp>)
    requires payload == [] || payload[0] != '{' || payload[|payload| - 1] != '}'
    ensures Decode(payload, now, parseNumber, parseTime) == None
  {
  }

  /** A braced payload whose inner text has other than two `;` is dropped. */
  lemma RejectsFieldCount(inner: string, now: Timestamp,
                          parseNumber: string -> Option<real>,
                          parseTime: string -> Option<Timestamp>)
    requires multiset(inner)[';'] != 2
    ensures Decode("{" + inner + "}", now, parseNumber, parseTime) == None
  {
    var payload := "{" + inner + "}";
    assert payload[1..|payload| - 1] == inner;
  }

  /** A field that does not parse as a number does not drop the frame: the row
      is kept with that field absent, and an unparsable timestamp becomes `now`. */
  lemma BadFieldsKept(t: string, i: string, v: string, now: Timestamp,
                      parseNumber: string -> Option<real>,
                      parseTime: string -> Option<Timestamp>)
    requires ';' !in t && ';' !in i && ';' !in v
    requires parseNumber(Strip(i)) == None && parseTime(Strip(t)) == None
    ensures
      var r := Decode(Render(t, i, v), now, parseNumber, parseTime);
      && r.Some? && r.value.intensity == None && r.value.timestamp == now
      && r.value.source == LiveSource
  {
    DecodeRender(t, i, v, now, parseNumber, parseTime);
  }

  /** A frame whose fields carry no padding decodes to those fields as they are. */
  lemma DecodeCanonical(t: string, i: string, v: string, now: Timestamp,
                        parseNumber: string -> Option<real>,
                        parseTime: string -> Option<Timestamp>)
    requires ';' !in t && ';' !in i && ';' !in v
    requires Trimmed(t) && Trimmed(i) && Trimmed(v)
    ensures
      var voltage := parseNumber(v);
      Decode(Render(t, i, v), now, parseNumber, parseTime) == Some(Row(
        parseTime(t).GetOr(now), parseNumber(i), voltage,
        DeriveStates(voltage).0, DeriveStates(voltage).1, LiveSource))
  {
    StripTrimmed(t);
    StripTrimmed(i);
    StripTrimmed(v);
    DecodeRender(t, i, v, now, parseNumber, parseTime);
  }

  /** The example frame of the sensor firmware: relay active, lamp dark. */
  lemma DecodeExampleActive(payload: string, now: Timestamp, at: Timestamp,
                            parseNumber: string -> Option<real>,
                            parseTime: string -> Option<Timestamp>)
    requires payload == "{2024-01-01 12:30:45;35;220.0}"
    requires parseTime("2024-01-01 12:30:45") == Some(at)
    requires parseNumber("35") == Some(35.0) && parseNumber("220.0") == Some(220.0)
    ensures Decode(payload, now, parseNumber, parseTime)
         == Some(Row(at, Some(35.0), Some(220.0), RelayActive, LampOff, LiveSource))
  {
    var t, i, v := "2024-01-01 12:30:45", "35", "220.0";
    assert ';' !in t && ';' !in i && ';' !in v;
    assert Trimmed(t) && Trimmed(i) && Trimmed(v);
    assert Render(t, i, v) == payload;
    DecodeCanonical(t, i, v, now, parseNumber, parseTime);
  }

  /** Voltage 0.0: relay off, lamp lit. */
  lemma DecodeExampleLit(payload: string, now: Timestamp, at: Timestamp,
                         parseNumber: string -> Option<real>,
                         parseTime: string -> Option<Timestamp>)
    requires payload == "{2024-01-01 12:30:45;10;0.0}"
    requires parseTime("2024-01-01 12:30:45") == Some(at)
    requires parseNumber("10") == Some(10.0) && parseNumber("0.0") == Some(0.0)
    ensures Decode(payload, now, parseNumber, parseTime)
         == Some(Row(at, Some(10.0), Some(0.0), RelayOff, LampOn, LiveSource))
  {
    var t, i, v := "2024-01-01 12:30:45", "10", "0.0";
    assert ';' !in t && ';' !in i && ';' !in v;
    assert Trimmed(t) && Trimmed(i) && Trimmed(v);
    assert Render(t, i, v) == payload;
    DecodeCanonical(t, i, v, now, parseNumber, parseTime);
  }

  /** A non-numeric intensity leaves the frame accepted with intensity absent. */
  lemma DecodeExampleBadIntensity(payload: string, now: Timestamp, at: Timestamp,
                                  parseNumber: string -> Option<real>,
                                  parseTime: string -> Option<Timestamp>)
    requires payload == "{2024-01-01 12:30:45;abc;220.0}"
    requires parseTime("2024-01-01 12:30:45") == Some(at)
    requires parseNumber("abc") == None && parseNumber("220.0") == Some(220.0)
    ensures Decode(payload, now, parseNumber, parseTime)
         == Some(Row(at, None, Some(220.0), RelayActive, LampOff, LiveSource))
  {
    var t, i, v := "2024-01-01 12:30:45", "abc", "220.0";
    assert ';' !in t && ';' !in i && ';' !in v;
    assert Trimmed(t) && Trimmed(i) && Trimmed(v);
    assert Render(t, i, v) == payload;
    DecodeCanonical(t, i, v, now, parseNumber, parseTime);
  }

  /** `{;;}` has three (empty) fields and is accepted, every value absent. */
  lemma DecodeExampleEmptyFields(payload: string, now: Timestamp,
                                 parseNumber: string -> Option<real>,
                                 parseTime: string -> Option<Timestamp>)
    requires payload == "{;;}"
    requires parseTime("") == None && parseNumber("") == None
    ensures Decode(payload, now, parseNumber, parseTime)
         == Some(Row(now, None, None, RelayUnknown, LampUnknown, LiveSource))
  {
    assert Render("", "", "") == payload;
    DecodeCanonical("", "", "", now, parseNumber, parseTime);
  }

  /** A trailing newline after the closing brace drops the frame. */
  lemma DecodeExampleTrailingNewline(payload: string, now: Timestamp,
                                     parseNumber: string -> Option<real>,
                                     parseTime: string -> Option<Timestamp>)
    requires payload == "{2024-01-01 12:30:45;35;220.0}\n"
    ensures Decode(payload, now, parseNumber, parseTime) == None
  {
    RejectsUnbraced(payload, now, parseNumber, parseTime);
  }

  /** `{}` splits into one part and is dropped. */
  lemma DecodeExampleNoFields(payload: string, now: Timestamp,
                              parseNumber: string -> Option<real>,
                              parseTime: string -> Option<Timestamp>)
    requires payload == "{}"
    ensures Decode(payload, now, parseNumber, parseTime) == None
  {
    assert payload == "{" + "" + "}";
    RejectsFieldCount("", now, parseNumber, parseTime);
  }
}
