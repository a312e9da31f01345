/**
 * The inbound command handler (mqtt_data_handle) and the globals it writes.
 *
 * Every received message is first copied into the 30-byte global buffers mqtt_topic and
 * mqtt_data; the topic's C string then selects the command. "/mofuban/ledtoggle" flips the
 * Bluetooth-status LED and publishes its new state; "/mofuban/alarmset" stores the payload
 * as the alarm time when the alarm pattern matches it. Any other topic changes nothing.
 *
 * The alarm pattern (regexbt) is compiled in bt.c, which is not part of this model; its
 * verdict on a payload is the parameter `matches`.
 */
module Commands {
  import opened Outputs
  import opened CStrings

  const BUFFER_SIZE: nat := 30

  const TOGGLE_TOPIC: string := "/mofuban/ledtoggle"
  const ALARM_TOPIC: string := "/mofuban/alarmset"
  const STATUS_TOPIC: string := "/mofuban/ledstat"

  /** The bt.c globals the handler's commands act on: ledbt_status, alarmtime and
      alarmsetted. The handler also writes reti (the regexec verdict) and temp_string (the
      text it publishes); those are not kept here, the verdict being `matches` and the text
      the published payload. */
  datatype BtState = BtState(ledbt: int, alarmTime: string, alarmSet: int)

  /** A side effect of a command: a GPIO write or a publication of a short text. */
  datatype Effect = Write(write: GpioWrite) | Publish(message: Publication<string>)

  /** The new state of the globals and the effects, in order. */
  datatype Handled = Handled(state: BtState, effects: seq<Effect>)

  /** The toggle: any non-zero status becomes 0, zero becomes 1. */
  function Flip(ledbt: int): (r: int)
    ensures r == 0 || r == 1
    ensures r == 1 <==> ledbt == 0
  {
    if ledbt != 0 then 0 else 1
  }

  /** sprintf("%d") of a status the toggle produced: a single decimal digit whose value is
      the status. */
  function DecimalText(v: int): (s: string)
    requires v == 0 || v == 1
    ensures |s| == 1 && '0' <= s[0] <= '9' && (s[0] as int) - ('0' as int) == v
  {
    if v == 1 then "1" else "0"
  }

  /** The toggle branch: drive LED_BT to the flipped status, store it, publish it. */
  function Toggle(st: BtState): Handled {
    var level := Flip(st.ledbt);
    Handled(st.(ledbt := level),
            [Write(SetLevel(BtLed, level)),
             Publish(Publication(STATUS_TOPIC, DecimalText(level), QOS, RETAIN))])
  }

  /** The two topic tests of the handler, in order, on the received topic's and payload's C
      strings. */
  function Dispatch(st: BtState, topic: string, data: string, matches: string -> bool): Handled {
    var afterToggle := if topic == TOGGLE_TOPIC then Toggle(st) else Handled(st, []);
    if topic == ALARM_TOPIC && matches(data) then
      Handled(afterToggle.state.(alarmTime := data, alarmSet := 1), afterToggle.effects)
    else afterToggle
  }

  /** A toggle message flips the status into {0, 1} whatever its payload, drives LED_BT to
      the new status and publishes it as "1" or "0" on the status topic; the alarm is untouched. */
  lemma ToggleCommand(st: BtState, data: string, matches: string -> bool)
    ensures var h := Dispatch(st, TOGGLE_TOPIC, data, matches);
      var level := if st.ledbt == 0 then 1 else 0;
      && h.state == BtState(level, st.alarmTime, st.alarmSet)
      && h.effects == [Write(SetLevel(BtLed, level)),
                       Publish(Publication(STATUS_TOPIC, if level == 1 then "1" else "0", QOS, RETAIN))]
  {
    assert TOGGLE_TOPIC != ALARM_TOPIC by { assert TOGGLE_TOPIC[9] != ALARM_TOPIC[9]; }
  }

  /** Two toggles, with any payloads, restore a status that was 0 or 1, and nothing else
      changed in between. */
  lemma ToggleTwiceRestores(st: BtState, d1: string, d2: string, matches: string -> bool)
    requires st.ledbt == 0 || st.ledbt == 1
    ensures Dispatch(Dispatch(st, TOGGLE_TOPIC, d1, matches).state, TOGGLE_TOPIC, d2, matches).state == st
  {
    ToggleCommand(st, d1, matches);
    ToggleCommand(Dispatch(st, TOGGLE_TOPIC, d1, matches).state, d2, matches);
  }

  /** From the start-up status 0, successive toggles publish "1", then "0". */
  lemma TogglePublishesAlternately(st: BtState, d1: string, d2: string, matches: string -> bool)
    requires st.ledbt == 0
    ensures var h1 := Dispatch(st, TOGGLE_TOPIC, d1, matches);
      var h2 := Dispatch(h1.state, TOGGLE_TOPIC, d2, matches);
      && h1.effects[1] == Publish(Publication(STATUS_TOPIC, "1", QOS, RETAIN))
      && h2.effects[1] == Publish(Publication(STATUS_TOPIC, "0", QOS, RETAIN))
  {
    ToggleCommand(st, d1, matches);
    ToggleCommand(Dispatch(st, TOGGLE_TOPIC, d1, matches).state, d2, matches);
  }

  /** An alarm message sets alarmtime to the payload and alarmsetted to 1 exactly when the
      pattern matches; otherwise nothing changes. It never publishes or drives a pin. */
  lemma AlarmCommand(st: BtState, data: string, matches: string -> bool)
    ensures var h := Dispatch(st, ALARM_TOPIC, data, matches);
      && h.effects == []
      && h.state == (if matches(data) then BtState(st.ledbt, data, 1) else st)
  {
    assert TOGGLE_TOPIC != ALARM_TOPIC by { assert TOGGLE_TOPIC[9] != ALARM_TOPIC[9]; }
  }

  /** A message on any other topic changes no global and has no effect. */
  lemma UnknownTopicIgnored(st: BtState, topic: string, data: string, matches: string -> bool)
    requires topic != TOGGLE_TOPIC && topic != ALARM_TOPIC
    ensures Dispatch(st, topic, data, matches) == Handled(st, [])
  {
  }

  /** The alarm changes only through a matching alarm message, and once set it stays set:
      there is no way back to the unset state. */
  lemma AlarmOnlyThroughMatch(st: BtState, topic: string, data: string, matches: string -> bool)
    ensures var h := Dispatch(st, topic, data, matches);
      && (h.state.alarmTime != st.alarmTime || h.state.alarmSet != st.alarmSet ==>
            topic == ALARM_TOPIC && matches(data) && h.state.alarmTime == data && h.state.alarmSet == 1)
      && (st.alarmSet == 1 ==> h.state.alarmSet == 1)
  {
  }

  /** memset(buf, 0, strlen(buf)), in place. */
  method ClearBuffer(buf: array<char>)
    requires NUL in buf[..]
    modifies buf
    ensures buf[..] == ClearToStrlen(old(buf[..]))
  {
    var n := Strlen(buf[..]);
    forall k | 0 <= k < n {
      buf[k] := NUL;
    }
  }

  /** The byte-by-byte copy loop of the handler. */
  method CopyBytes(buf: array<char>, bytes: seq<char>)
    requires |bytes| <= buf.Length
    modifies buf
    ensures buf[..] == CopyIn(old(buf[..]), bytes)
  {
    for i := 0 to |bytes|
      invariant forall k :: 0 <= k < i ==> buf[k] == bytes[k]
      invariant forall k :: i <= k < buf.Length ==> buf[k] == old(buf[k])
    {
      buf[i] := bytes[i];
    }
    assert buf[..] == CopyIn(old(buf[..]), bytes) by {
      assert forall k :: 0 <= k < buf.Length ==> buf[..][k] == CopyIn(old(buf[..]), bytes)[k];
    }
  }

  /**
   * The globals of app_main.c and bt.c that the handler's commands read and decide on: the
   * two message buffers and the three bt.c values of `BtState`. The two buffer arrays are
   * fixed for the life of the program; their contents and the bt.c values change in place.
   */
  class Globals {
    const mqttTopic: array<char>
    const mqttData: array<char>
    var ledbtStatus: int
    var alarmTime: string
    var alarmSetted: int

    /** Both buffers are 30 bytes, distinct, and each ends in a NUL, so strlen, strcmp,
        regexec and strcpy stay inside them. */
    ghost predicate Valid()
      reads this, mqttTopic, mqttData
    {
      && mqttTopic.Length == BUFFER_SIZE && mqttData.Length == BUFFER_SIZE
      && mqttTopic != mqttData
      && mqttTopic[BUFFER_SIZE - 1] == NUL && mqttData[BUFFER_SIZE - 1] == NUL
    }

    /** Both buffers hold a C string followed only by NULs, as they do from start-up for as
        long as no message carries an embedded NUL. */
    ghost predicate Clean()
      reads this, mqttTopic, mqttData
    {
      Terminated(mqttTopic[..]) && Terminated(mqttData[..])
    }

    function State(): BtState
      reads this
    {
      BtState(ledbtStatus, alarmTime, alarmSetted)
    }

    /** Globals start zeroed: empty buffers, status 0, no alarm. */
    constructor ()
      ensures Valid() && Clean() && fresh(mqttTopic) && fresh(mqttData)
      ensures mqttTopic[..] == Zeros(BUFFER_SIZE) && mqttData[..] == Zeros(BUFFER_SIZE)
      ensures State() == BtState(0, "", 0)
    {
      mqttTopic := new char[BUFFER_SIZE](_ => NUL);
      mqttData := new char[BUFFER_SIZE](_ => NUL);
      ledbtStatus := 0;
      alarmTime := "";
      alarmSetted := 0;
      new;
      assert mqttTopic[..] == Zeros(BUFFER_SIZE) && mqttData[..] == Zeros(BUFFER_SIZE);
      StrlenAt(Zeros(BUFFER_SIZE), 0);
    }

    /** mqtt_data_handle. The lengths are not checked by the handler: a topic or payload of
        exactly 30 bytes overwrites the buffer's last NUL, so strcmp, regexec, strcpy and the
        next strlen read past the buffer, and a longer one writes past it; callers must stay
        below 30 bytes.

        Whatever the buffers held, the commands act on the C strings the buffers hold after
        the copy. While the buffers are clean, those are the C strings of the message itself. */
    method HandleMessage(topic: seq<char>, data: seq<char>, matches: string -> bool)
      returns (effects: seq<Effect>)
      requires Valid()
      requires |topic| < BUFFER_SIZE && |data| < BUFFER_SIZE
      modifies this, mqttTopic, mqttData
      ensures Valid()
      ensures mqttTopic[..] == ReceiveAsWritten(old(mqttTopic[..]), topic)
      ensures mqttData[..] == ReceiveAsWritten(old(mqttData[..]), data)
      ensures Handled(State(), effects) == Dispatch(old(State()), UpToNul(mqttTopic[..]), UpToNul(mqttData[..]), matches)
      ensures old(Terminated(mqttTopic[..])) ==>
        mqttTopic[..] == ReceiveCleared(BUFFER_SIZE, topic) && UpToNul(mqttTopic[..]) == UpToNul(topic)
      ensures old(Terminated(mqttData[..])) ==>
        mqttData[..] == ReceiveCleared(BUFFER_SIZE, data) && UpToNul(mqttData[..]) == UpToNul(data)
      ensures old(Clean()) ==>
        Handled(State(), effects) == Dispatch(old(State()), UpToNul(topic), UpToNul(data), matches)
      ensures old(Clean()) && NUL !in topic && NUL !in data ==> Clean()
    {
      ghost var topic0 := mqttTopic[..];
      ghost var data0 := mqttData[..];
      ghost var st0 := State();
      ReceiveIntoBuffer(topic0, topic);
      ReceiveIntoBuffer(data0, data);
      ClearBuffer(mqttTopic);
      assert mqttData[..] == data0;
      ClearBuffer(mqttData);
      ghost var topic1 := mqttTopic[..];
      assert topic1 == ClearToStrlen(topic0);
      CopyBytes(mqttTopic, topic);
      ghost var data1 := mqttData[..];
      assert data1 == ClearToStrlen(data0);
      CopyBytes(mqttData, data);
      ghost var topic2 := mqttTopic[..];
      ghost var data2 := mqttData[..];
      assert topic2 == ReceiveAsWritten(topic0, topic);
      assert data2 == ReceiveAsWritten(data0, data);
      assert State() == st0;

      var t := UpToNul(mqttTopic[..]);
      var d := UpToNul(mqttData[..]);
      effects := Execute(t, d, matches);
      assert mqttTopic[..] == topic2 && mqttData[..] == data2;
    }

    /** The two strcmp tests on the buffers' C strings and the command branches. */
    method Execute(t: string, d: string, matches: string -> bool) returns (effects: seq<Effect>)
      modifies this
      ensures Handled(State(), effects) == Dispatch(old(State()), t, d, matches)
    {
      effects := [];
      if t == TOGGLE_TOPIC {
        if ledbtStatus != 0 {
          effects := [Write(SetLevel(BtLed, 0))];
          ledbtStatus := 0;
        } else {
          effects := [Write(SetLevel(BtLed, 1))];
          ledbtStatus := 1;
        }
        effects := effects + [Publish(Publication(STATUS_TOPIC, DecimalText(ledbtStatus), QOS, RETAIN))];
      }
      if t == ALARM_TOPIC {
        if matches(d) {
          alarmTime := d;
          alarmSetted := 1;
        }
      }
    }
  }
}
