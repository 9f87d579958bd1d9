/**
 * The dashboard's session state and the writes made to it by the MQTT
 * callbacks (`on_connect`, `on_disconnect`, `on_message`), by
 * `connect_mqtt` / `disconnect_mqtt`, and by the "Reset Data" button.
 * The paho client runs its callbacks from `client.loop()` on the page's
 * own run, so every write is a sequential method call here.
 */
module Session {
  import opened Wrappers
  import opened Text
  import opened Frame

  /** The log keeps at most this many rows. */
  const Capacity: nat := 1000

  const NotConnectedStatus := "\U{274C} TIDAK TERKONEKSI"
  const ConnectedStatus := "\U{2705} TERKONEKSI"
  const DroppedStatus := "\U{274C} TERPUTUS"
  /** Prefix of every failure status. */
  const FailurePrefix := "\U{274C} "
  const NeverAttempted := "Belum pernah"

  /** The broker's CONNACK reason code as text, as `on_connect` reports it. */
  function ErrorMessage(rc: int): (msg: string)
    ensures rc == 1 ==> msg == "Incorrect protocol version"
    ensures rc == 2 ==> msg == "Invalid client identifier"
    ensures rc == 3 ==> msg == "Server unavailable"
    ensures rc == 4 ==> msg == "Bad username or password"
    ensures rc == 5 ==> msg == "Not authorized"
    ensures !(1 <= rc <= 5) ==> msg == "Error code: " + IntToString(rc)
  {
    match rc
    case 1 => "Incorrect protocol version"
    case 2 => "Invalid client identifier"
    case 3 => "Server unavailable"
    case 4 => "Bad username or password"
    case 5 => "Not authorized"
    case _ => "Error code: " + IntToString(rc)
  }

  /** Reads the reason code back out of an error message. */
  function ReasonCode(msg: string): Option<int> {
    if msg == "Incorrect protocol version" then Some(1)
    else if msg == "Invalid client identifier" then Some(2)
    else if msg == "Server unavailable" then Some(3)
    else if msg == "Bad username or password" then Some(4)
    else if msg == "Not authorized" then Some(5)
    else if |msg| >= 12 && msg[..12] == "Error code: " then ParseInt(msg[12..])
    else None
  }

  /** The error message identifies the reason code: distinct codes give
      distinct messages. */
  lemma ErrorMessageNamesCode(rc: int)
    ensures ReasonCode(ErrorMessage(rc)) == Some(rc)
  {
    if !(1 <= rc <= 5) {
      var msg := ErrorMessage(rc);
      var digits := IntToString(rc);
      assert msg[..12] == "Error code: " && msg[12..] == digits;
      assert msg != "Incorrect protocol version" by { assert msg[0] != "Incorrect protocol version"[0]; }
      assert msg != "Invalid client identifier" by { assert msg[0] != "Invalid client identifier"[0]; }
      assert msg != "Server unavailable" by { assert msg[0] != "Server unavailable"[0]; }
      assert msg != "Bad username or password" by { assert msg[0] != "Bad username or password"[0]; }
      assert msg != "Not authorized" by { assert msg[0] != "Not authorized"[0]; }
      IntToStringRoundTrip(rc);
    }
  }

  /** The log after `logs.append(row)` and the cut to its last `Capacity` rows. */
  function BoundedAppend(log: seq<Row>, row: Row): (r: seq<Row>)
    ensures |r| == if |log| < Capacity then |log| + 1 else Capacity
    ensures r == (log + [row])[|log| + 1 - |r|..]
  {
    var appended := log + [row];
    if |appended| > Capacity then appended[|appended| - Capacity..] else appended
  }

  /** The last `n` elements of `s` (all of them when there are fewer). */
  function LastN<T>(s: seq<T>, n: nat): (r: seq<T>)
    ensures |r| == if |s| < n then |s| else n
  {
    if |s| <= n then s else s[|s| - n..]
  }

  /** A below-capacity log grows by exactly the new row; a full one drops its
      oldest row; either way the new row is last. */
  lemma BoundedAppendShape(log: seq<Row>, row: Row)
    requires |log| <= Capacity
    ensures |log| < Capacity ==> BoundedAppend(log, row) == log + [row]
    ensures |log| == Capacity ==> BoundedAppend(log, row) == log[1..] + [row]
    ensures BoundedAppend(log, row)[|BoundedAppend(log, row)| - 1] == row
  {
    var r := BoundedAppend(log, row);
    if |log| == Capacity {
      assert (log + [row])[1..] == log[1..] + [row];
    }
  }

  /** The log after each of `rows` has been appended in turn. */
  function AppendAll(log: seq<Row>, rows: seq<Row>): seq<Row>
    decreases |rows|
  {
    if rows == [] then log else AppendAll(BoundedAppend(log, rows[0]), rows[1..])
  }

  /** Dropping a prefix that leaves at least `n` elements keeps the last `n`. */
  lemma LastNDrop<T>(s: seq<T>, k: nat, n: nat)
    requires k + n <= |s|
    ensures LastN(s[k..], n) == LastN(s, n)
  {
    assert s[k..][|s| - k - n..] == s[|s| - n..];
  }

  /** One bounded append followed by further rows keeps the same last
      `Capacity` rows as the plain concatenation. */
  lemma AppendStep(log: seq<Row>, row: Row, rest: seq<Row>)
    requires |log| <= Capacity
    ensures LastN(BoundedAppend(log, row) + rest, Capacity) == LastN(log + ([row] + rest), Capacity)
  {
    var whole := log + ([row] + rest);
    var s := BoundedAppend(log, row) + rest;
    assert (log + [row]) + rest == whole;
    if |log| + 1 > Capacity {
      var k := |log| + 1 - Capacity;
      assert s == whole[k..];
      LastNDrop(whole, k, Capacity);
    }
  }

  /** Appending many rows one at a time keeps exactly the last `Capacity`
      rows of the whole history, in arrival order. */
  lemma {:induction false} AppendAllKeepsLast(log: seq<Row>, rows: seq<Row>)
    requires |log| <= Capacity
    ensures AppendAll(log, rows) == LastN(log + rows, Capacity)
    decreases |rows|
  {
    if rows == [] {
      assert log + rows == log;
    } else {
      var next := BoundedAppend(log, rows[0]);
      AppendAllKeepsLast(next, rows[1..]);
      AppendStep(log, rows[0], rows[1..]);
      assert [rows[0]] + rows[1..] == rows;
    }
  }

  /** Starting from an empty log, `Capacity + k` readings leave exactly the
      last `Capacity` of them. */
  lemma OverflowKeepsNewest(rows: seq<Row>, k: nat)
    requires |rows| == Capacity + k
    ensures AppendAll([], rows) == rows[k..]
  {
    var empty: seq<Row> := [];
    AppendAllKeepsLast(empty, rows);
    assert empty + rows == rows;
    assert LastN(rows, Capacity) == rows[|rows| - Capacity..];
  }

  /** A bounded append of a decoded row to a log of decoded rows keeps every
      row decoded and leaves the new row last. */
  lemma BoundedAppendKeepsRows(log: seq<Row>, row: Row)
    requires |log| <= Capacity
    requires forall k :: 0 <= k < |log| ==> WellFormed(log[k])
    requires WellFormed(row)
    ensures var r := BoundedAppend(log, row);
      && (forall k :: 0 <= k < |r| ==> WellFormed(r[k]))
      && LastOf(r) == Some(row)
  {
    var appended := log + [row];
    var r := BoundedAppend(log, row);
    assert forall k :: 0 <= k < |appended| ==> WellFormed(appended[k]);
    var d := |log| + 1 - |r|;
    assert forall k :: 0 <= k < |r| ==> r[k] == appended[d + k];
  }

  /** The latest row of a log, as `last_data` should hold it. */
  function LastOf(log: seq<Row>): Option<Row> {
    if log == [] then None else Some(log[|log| - 1])
  }

  /** What `connect_mqtt` found: the socket probe failed (with the exception
      text, or with none when the port was merely closed), creating or
      connecting the paho client raised, or the client connected at the
      given wall-clock time, already formatted as `%H:%M:%S`. */
  datatype ConnectOutcome =
    | ProbeFailed(probeError: Option<string>)
    | ClientRaised(error: string)
    | ClientConnected(attemptTime: string)

  /** The text Python's f-string gives for an optional error. */
  function ErrorText(e: Option<string>): string {
    match e
    case Some(s) => s
    case None => "None"
  }

  /** The Streamlit session state of the page. */
  class DashboardState {
    var mqttConnected: bool
    var connectionStatus: string
    var connectionError: string
    var logs: seq<Row>
    var lastData: Option<Row>
    /** Whether `mqtt_client` holds a client. */
    var hasClient: bool
    var lastConnectionAttempt: string

    /** The log is bounded, holds only decoded rows, and `last_data` is its
        newest row (none when the log is empty). */
    ghost predicate Valid()
      reads this
    {
      && |logs| <= Capacity
      && (forall k :: 0 <= k < |logs| ==> WellFormed(logs[k]))
      && lastData == LastOf(logs)
    }

    /** The session-state initialisation at the top of the page. */
    constructor ()
      ensures Valid()
      ensures !mqttConnected && connectionStatus == NotConnectedStatus && connectionError == ""
      ensures logs == [] && lastData == None
      ensures !hasClient && lastConnectionAttempt == NeverAttempted
    {
      mqttConnected := false;
      connectionStatus := NotConnectedStatus;
      connectionError := "";
      logs := [];
      lastData := None;
      hasClient := false;
      lastConnectionAttempt := NeverAttempted;
    }

    /** `on_connect`: reason code 0 is success; any other code marks the
        session disconnected and records its message. */
    method OnConnect(rc: int)
      requires Valid()
      modifies this
      ensures Valid()
      ensures mqttConnected <==> rc == 0
      ensures rc == 0 ==> connectionStatus == ConnectedStatus && connectionError == ""
      ensures rc != 0 ==>
                connectionError == ErrorMessage(rc) && connectionStatus == FailurePrefix + ErrorMessage(rc)
      ensures logs == old(logs) && lastData == old(lastData)
      ensures hasClient == old(hasClient) && lastConnectionAttempt == old(lastConnectionAttempt)
    {
      if rc == 0 {
        mqttConnected := true;
        connectionStatus := ConnectedStatus;
        connectionError := "";
      } else {
        mqttConnected := false;
        var msg := ErrorMessage(rc);
        connectionStatus := FailurePrefix + msg;
        connectionError := msg;
      }
    }

    /** `on_disconnect`: the broker session dropped. */
    method OnDisconnect()
      requires Valid()
      modifies this
      ensures Valid()
      ensures !mqttConnected && connectionStatus == DroppedStatus
      ensures connectionError == old(connectionError)
      ensures logs == old(logs) && lastData == old(lastData)
      ensures hasClient == old(hasClient) && lastConnectionAttempt == old(lastConnectionAttempt)
    {
      mqttConnected := false;
      connectionStatus := DroppedStatus;
    }

    /** `on_message`: a frame that decodes is appended to the bounded log and
        becomes `last_data`; any other payload leaves everything as it was. */
    method OnMessage(payload: string, now: Timestamp,
                     parseNumber: string -> Option<real>,
                     parseTime: string -> Option<Timestamp>)
      requires Valid()
      modifies this
      ensures Valid()
      ensures Decode(payload, now, parseNumber, parseTime).None? ==>
                logs == old(logs) && lastData == old(lastData)
      ensures Decode(payload, now, parseNumber, parseTime).Some? ==>
                var row := Decode(payload, now, parseNumber, parseTime).value;
                lastData == Some(row) && logs == BoundedAppend(old(logs), row)
      ensures mqttConnected == old(mqttConnected) && connectionStatus == old(connectionStatus)
      ensures connectionError == old(connectionError)
      ensures hasClient == old(hasClient) && lastConnectionAttempt == old(lastConnectionAttempt)
    {
      var decoded := Decode(payload, now, parseNumber, parseTime);
      if decoded.Some? {
        Record(decoded.value);
      }
    }

    /** The writes of `on_message` for a decoded row: it becomes `last_data`
        and is appended to the log, which is then cut to its newest
        `Capacity` rows. */
    method Record(row: Row)
      requires Valid() && WellFormed(row)
      modifies this
      ensures Valid()
      ensures lastData == Some(row) && logs == BoundedAppend(old(logs), row)
      ensures mqttConnected == old(mqttConnected) && connectionStatus == old(connectionStatus)
      ensures connectionError == old(connectionError)
      ensures hasClient == old(hasClient) && lastConnectionAttempt == old(lastConnectionAttempt)
    {
      BoundedAppendKeepsRows(logs, row);
      lastData := Some(row);
      logs := logs + [row];
      if |logs| > Capacity {
        logs := logs[|logs| - Capacity..];
      }
    }

    /** `connect_mqtt`: a failed probe or a raising client records the error;
        a connected client is stored with the attempt time. The connected
        flag itself is left to `on_connect`. */
    method Connect(outcome: ConnectOutcome) returns (ok: bool)
      requires Valid()
      modifies this
      ensures Valid()
      ensures ok <==> outcome.ClientConnected?
      ensures outcome.ProbeFailed? ==>
                && connectionStatus == FailurePrefix + "Broker tidak dapat diakses: " + ErrorText(outcome.probeError)
                && connectionError == outcome.probeError.GetOr("")
                && hasClient == old(hasClient) && lastConnectionAttempt == old(lastConnectionAttempt)
      ensures outcome.ClientRaised? ==>
                && connectionStatus == FailurePrefix + "Connection error: " + outcome.error
                && connectionError == outcome.error
                && hasClient == old(hasClient) && lastConnectionAttempt == old(lastConnectionAttempt)
      ensures outcome.ClientConnected? ==>
                && hasClient && lastConnectionAttempt == outcome.attemptTime
                && connectionStatus == old(connectionStatus) && connectionError == old(connectionError)
      ensures mqttConnected == old(mqttConnected)
      ensures logs == old(logs) && lastData == old(lastData)
    {
      match outcome
      case ProbeFailed(e) =>
        connectionStatus := FailurePrefix + "Broker tidak dapat diakses: " + ErrorText(e);
        connectionError := e.GetOr("");
        ok := false;
      case ClientRaised(e) =>
        connectionStatus := FailurePrefix + "Connection error: " + e;
        connectionError := e;
        ok := false;
      case ClientConnected(t) =>
        hasClient := true;
        lastConnectionAttempt := t;
        ok := true;
    }

    /** `disconnect_mqtt`: drop the client and mark the session not connected. */
    method Disconnect()
      requires Valid()
      modifies this
      ensures Valid()
      ensures !mqttConnected && connectionStatus == NotConnectedStatus && !hasClient
      ensures connectionError == old(connectionError)
      ensures logs == old(logs) && lastData == old(lastData)
      ensures lastConnectionAttempt == old(lastConnectionAttempt)
    {
      mqttConnected := false;
      connectionStatus := NotConnectedStatus;
      hasClient := false;
    }

    /** The "Reset Data" button: empty the log and forget the last row. */
    method Reset()
      requires Valid()
      modifies this
      ensures Valid()
      ensures logs == [] && lastData == None
      ensures mqttConnected == old(mqttConnected) && connectionStatus == old(connectionStatus)
      ensures connectionError == old(connectionError)
      ensures hasClient == old(hasClient) && lastConnectionAttempt == old(lastConnectionAttempt)
    {
      logs := [];
      lastData := None;
    }
  }
}
