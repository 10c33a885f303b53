/**
 The message types as Shapes, with the layouts of a 64-bit little-endian ABI.
 A struct that is trivial for C++ is one Pod of its size, padding included; an empty
 struct has size 1.  The order of the alternatives is their std::variant index.
 */
module Messages {
  import opened Bytes
  import opened Codec

  const I64 := Pod(8)         // int64_t, size_t and double all have this width
  const ENUM := Pod(4)        // enum class with the default underlying type
  const EMPTY := Pod(1)

  const EVENT := Variant([
    Pod(32),                  // midi_sysex
    Pod(20),                  // midi
    Pod(32),                  // midi2
    Pod(40),                  // note_expression
    Pod(24),                  // param_gesture
    Pod(48),                  // param_mod
    Pod(48),                  // param_value
    Pod(96)                   // transport
  ])

  // dev_id, type, plugfile_path, plugin_id, callback
  const DEVICE_CREATE := Record([I64, ENUM, Text, Text, Omitted(8)])

  const IN_ALTERNATIVES: seq<Shape> := [
    Pod(8),                       //  0 activate
    EMPTY,                        //  1 close_all_editors
    EMPTY,                        //  2 crash
    EMPTY,                        //  3 deactivate
    Pod(32),                      //  4 device_connect
    DEVICE_CREATE,                //  5 device_create
    Pod(32),                      //  6 device_disconnect
    Pod(8),                       //  7 device_erase
    Pod(8),                       //  8 device_gui_hide
    Pod(8),                       //  9 device_gui_show
    Record([I64, Text, I64]),     // 10 device_load
    Pod(16),                      // 11 device_request_state
    Record([I64, EVENT]),         // 12 event
    Pod(24),                      // 13 get_param_value
    Pod(32),                      // 14 get_param_value_text
    EMPTY,                        // 15 heartbeat
    EMPTY,                        // 16 panic
    Pod(16),                      // 17 set_autosave_interval
    ENUM,                         // 18 set_render_mode
    Record([I64, Optional(4)]),   // 19 set_track_color
    Record([I64, Text])           // 20 set_track_name
  ]

  const IN_DEVICE_CREATE: nat := 5
  const DEVICE_CREATE_CALLBACK: nat := 4

  // id, flags, name, min_value, max_value, default_value
  const CLIENT_PARAM_INFO := Record([Pod(4), Pod(4), Text, Pod(8), Pod(8), Pod(8)])

  const OUT_ALTERNATIVES: seq<Shape> := [
    EMPTY,                                    //  0 confirm_activated
    Record([I64, Text]),                      //  1 device_autosave
    Record([I64, Text, I64]),                 //  2 device_create_fail
    Record([I64, Text, I64]),                 //  3 device_create_success
    Pod(24),                                  //  4 device_editor_visible_changed
    Pod(16),                                  //  5 device_flags
    Record([I64, I64, I64]),                  //  6 device_port_info
    Pod(16),                                  //  7 device_latency
    Pod(16),                                  //  8 device_load_fail
    Pod(16),                                  //  9 device_load_success
    Record([I64, List(CLIENT_PARAM_INFO)]),   // 10 device_param_info
    Record([Text]),                           // 11 report_error
    Record([Text]),                           // 12 report_info
    Record([Text]),                           // 13 report_warning
    Pod(16),                                  // 14 return_param_value
    Record([Text, I64]),                      // 15 return_param_value_text
    Record([Text, I64])                       // 16 return_requested_state
  ]

  const IN_MESSAGE := Variant(IN_ALTERNATIVES)
  const OUT_MESSAGE := Variant(OUT_ALTERNATIVES)

  /** Everything sent to the client arrives exactly as it was. */
  lemma OutMessageRoundTrip(m: Value, rest: seq<Byte>)
    requires Fits(OUT_MESSAGE, m)
    ensures Decode(OUT_MESSAGE, Encode(OUT_MESSAGE, m) + rest) == Got(m, rest)
  {
    RoundTrip(OUT_MESSAGE, m, rest);
    CompleteIsLossless(OUT_ALTERNATIVES[m.index], m.alt);
  }

  lemma RecordFits(fields: seq<Shape>, v: Value)
    requires Fits(Record(fields), v)
    ensures v.Fields? && FieldsFit(fields, v.values)
  {
  }

  lemma DeviceCreateFields(m: Value)
    requires Fits(IN_MESSAGE, m) && m.index == IN_DEVICE_CREATE
    ensures m.alt.Fields? && |m.alt.values| == 5
    ensures FieldsFit(DEVICE_CREATE.fields, m.alt.values)
    ensures FieldsReceived(DEVICE_CREATE.fields, m.alt.values) == m.alt.values[DEVICE_CREATE_CALLBACK := Raw(Zeros(8))]
  {
    assert IN_ALTERNATIVES[IN_DEVICE_CREATE] == DEVICE_CREATE;
    RecordFits(DEVICE_CREATE.fields, m.alt);
    assert |DEVICE_CREATE.fields| == 5;
  }

  /** The callback of a device_create, which both of its overloads skip. */
  predicate CallbackIsZero(m: Value)
    requires Fits(IN_MESSAGE, m) && m.index == IN_DEVICE_CREATE
  {
    DeviceCreateFields(m);
    m.alt.values[DEVICE_CREATE_CALLBACK] == Raw(Zeros(8))
  }

  lemma InAlternativeComplete(i: nat)
    requires i < |IN_ALTERNATIVES|
    ensures Complete(IN_ALTERNATIVES[i]) <==> i != IN_DEVICE_CREATE
  {
    if i == IN_DEVICE_CREATE {
      assert Omitted(8) == DEVICE_CREATE.fields[DEVICE_CREATE_CALLBACK] && !Complete(Omitted(8));
      assert !Complete(DEVICE_CREATE);
    }
  }

  /** A message to a sandbox arrives as it was, but for the callback of a device_create;
      so it arrives unchanged if and only if it has no such callback to lose. */
  lemma InMessageRoundTrip(m: Value, rest: seq<Byte>)
    requires Fits(IN_MESSAGE, m)
    ensures Decode(IN_MESSAGE, Encode(IN_MESSAGE, m) + rest) == Got(Received(IN_MESSAGE, m), rest)
    ensures Received(IN_MESSAGE, m) == m <==> (m.index == IN_DEVICE_CREATE ==> CallbackIsZero(m))
    ensures m.index == IN_DEVICE_CREATE ==>
      m.alt.Fields? && |m.alt.values| == 5 &&
      Received(IN_MESSAGE, m) == Alt(m.index, Fields(m.alt.values[DEVICE_CREATE_CALLBACK := Raw(Zeros(8))]))
  {
    RoundTrip(IN_MESSAGE, m, rest);
    if m.index == IN_DEVICE_CREATE {
      DeviceCreateFields(m);
    } else {
      InAlternativeComplete(m.index);
      CompleteIsLossless(IN_ALTERNATIVES[m.index], m.alt);
    }
  }
}
