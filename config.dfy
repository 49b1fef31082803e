/** `Config::Config` (src/utils.cpp): every line of the configuration file
    that contains `=` contributes the pair (text before the first `=`, text
    after it) to a key/value map, later lines replacing earlier ones; keys
    and values are not trimmed.  Then each known key that is present
    overrides its default, numeric ones through `std::stoi` (base 10), whose
    exceptions escape the constructor.  Reading the file is left out: the
    lines are the input (a file that cannot be opened gives no lines). */
module Config {
  import opened Common
  import opened CNumbers

  datatype Config = Config(
    segmentSeconds: int,
    bufferMinutes: int,
    pretriggerMinutes: int,
    posttriggerMinutes: int,
    bufferDir: string,
    eventDir: string,
    canIface: string,
    warningIds: string,
    buttonPin: int)

  const Defaults := Config(60, 10, 5, 5, "/tmp/dacl_buffer", "/tmp/dacl_events", "can0", "", 0)

  type KeyValues = map<string, string>

  /** The effect of one line on the key/value map. */
  function ApplyLine(kv: KeyValues, line: string): KeyValues
  {
    match IndexOf(line, '=')
    case None => kv
    case Some(pos) => kv[line[..pos] := line[pos + 1..]]
  }

  /** The key/value map after reading `lines` in order. */
  function KeyValuesOf(lines: seq<string>): KeyValues
  {
    if lines == [] then map[]
    else ApplyLine(KeyValuesOf(lines[..|lines| - 1]), lines[|lines| - 1])
  }

  /** Line `line` assigns `key`. */
  predicate Defines(line: string, key: string)
  {
    IndexOf(line, '=').Some? && line[..IndexOf(line, '=').value] == key
  }

  /** The value text of a line that contains `=`. */
  function ValueOf(line: string): string
    requires IndexOf(line, '=').Some?
  {
    line[IndexOf(line, '=').value + 1..]
  }

  /** A numeric setting: `stoi` of its value when the key is present. */
  function IntSetting(kv: KeyValues, key: string, default: int): Result<int, NumError>
  {
    if key in kv then Stoi(kv[key], Decimal) else Ok(default)
  }

  function TextSetting(kv: KeyValues, key: string, default: string): string
  {
    if key in kv then kv[key] else default
  }

  /** The fields assigned from the map, the numeric ones in the order the
      constructor converts them, so that the first failing `stoi` decides. */
  function Settings(kv: KeyValues): Result<Config, NumError>
  {
    var seg := IntSetting(kv, "segment_seconds", Defaults.segmentSeconds);
    var buf := IntSetting(kv, "buffer_minutes", Defaults.bufferMinutes);
    var pre := IntSetting(kv, "pretrigger_minutes", Defaults.pretriggerMinutes);
    var post := IntSetting(kv, "posttrigger_minutes", Defaults.posttriggerMinutes);
    var pin := IntSetting(kv, "button_pin", Defaults.buttonPin);
    if seg.Err? then Err(seg.error)
    else if buf.Err? then Err(buf.error)
    else if pre.Err? then Err(pre.error)
    else if post.Err? then Err(post.error)
    else if pin.Err? then Err(pin.error)
    else Ok(Config(seg.value, buf.value, pre.value, post.value,
                   TextSetting(kv, "buffer_dir", Defaults.bufferDir),
                   TextSetting(kv, "event_dir", Defaults.eventDir),
                   TextSetting(kv, "can_iface", Defaults.canIface),
                   TextSetting(kv, "warning_ids", Defaults.warningIds),
                   pin.value))
  }

  /** The constructor: the `getline` loop filling the map, then the fields. */
  method Load(lines: seq<string>) returns (r: Result<Config, NumError>)
    ensures r == Settings(KeyValuesOf(lines))
  {
    var kv: KeyValues := map[];
    var i := 0;
    while i < |lines|
      invariant 0 <= i <= |lines|
      invariant kv == KeyValuesOf(lines[..i])
    {
      assert lines[..i + 1][..i] == lines[..i];
      var line := lines[i];
      var pos := IndexOf(line, '=');
      if pos.Some? {
        kv := kv[line[..pos.value] := line[pos.value + 1..]];
      }
      i := i + 1;
    }
    assert lines[..i] == lines;
    r := Settings(kv);
  }

  // ---------------------------------------------------------------------
  // Properties
  // ---------------------------------------------------------------------

  /** A line without `=` changes nothing. */
  lemma LineWithoutEqualsIgnored(lines: seq<string>, line: string)
    requires '=' !in line
    ensures KeyValuesOf(lines + [line]) == KeyValuesOf(lines)
  {
    assert (lines + [line])[..|lines|] == lines;
  }

  lemma ApplyLineEffect(kv: KeyValues, line: string, key: string)
    ensures key in ApplyLine(kv, line) <==> key in kv || Defines(line, key)
    ensures Defines(line, key) ==> ApplyLine(kv, line)[key] == ValueOf(line)
    ensures !Defines(line, key) && key in kv ==> ApplyLine(kv, line)[key] == kv[key]
  {
  }

  /** A key is in the map exactly when some line assigns it. */
  lemma {:induction false} KeyPresentIffAssigned(lines: seq<string>, key: string)
    ensures key in KeyValuesOf(lines) <==> exists i :: 0 <= i < |lines| && Defines(lines[i], key)
  {
    if lines != [] {
      var n := |lines|;
      var init := lines[..n - 1];
      KeyPresentIffAssigned(init, key);
      ApplyLineEffect(KeyValuesOf(init), lines[n - 1], key);
      if exists i :: 0 <= i < n - 1 && Defines(init[i], key) {
        var i :| 0 <= i < n - 1 && Defines(init[i], key);
        assert lines[i] == init[i];
      }
      if exists i :: 0 <= i < n && Defines(lines[i], key) {
        var i :| 0 <= i < n && Defines(lines[i], key);
        if i < n - 1 { assert init[i] == lines[i]; }
      }
    }
  }

  /** The value of a key is the value text of the last line assigning it. */
  lemma {:induction false} LastAssignmentWins(lines: seq<string>, key: string, i: nat)
    requires i < |lines| && Defines(lines[i], key)
    requires forall j :: i < j < |lines| ==> !Defines(lines[j], key)
    ensures key in KeyValuesOf(lines) && KeyValuesOf(lines)[key] == ValueOf(lines[i])
  {
    var n := |lines|;
    var init := lines[..n - 1];
    ApplyLineEffect(KeyValuesOf(init), lines[n - 1], key);
    if i < n - 1 {
      LastAssignmentWins(init, key, i);
    }
  }

  /** No line of `lines` assigns `key`. */
  predicate Unassigned(lines: seq<string>, key: string)
  {
    forall i :: 0 <= i < |lines| ==> !Defines(lines[i], key)
  }

  /** Every setting whose key no line assigns keeps its default. */
  lemma AbsentKeyKeepsDefault(lines: seq<string>)
    requires Settings(KeyValuesOf(lines)).Ok?
    ensures var c := Settings(KeyValuesOf(lines)).value;
      (Unassigned(lines, "segment_seconds") ==> c.segmentSeconds == Defaults.segmentSeconds) &&
      (Unassigned(lines, "buffer_minutes") ==> c.bufferMinutes == Defaults.bufferMinutes) &&
      (Unassigned(lines, "pretrigger_minutes") ==> c.pretriggerMinutes == Defaults.pretriggerMinutes) &&
      (Unassigned(lines, "posttrigger_minutes") ==> c.posttriggerMinutes == Defaults.posttriggerMinutes) &&
      (Unassigned(lines, "buffer_dir") ==> c.bufferDir == Defaults.bufferDir) &&
      (Unassigned(lines, "event_dir") ==> c.eventDir == Defaults.eventDir) &&
      (Unassigned(lines, "can_iface") ==> c.canIface == Defaults.canIface) &&
      (Unassigned(lines, "warning_ids") ==> c.warningIds == Defaults.warningIds) &&
      (Unassigned(lines, "button_pin") ==> c.buttonPin == Defaults.buttonPin)
  {
    var kv := KeyValuesOf(lines);
    SettingsFields(kv);
    UnassignedIsAbsent(lines, "segment_seconds");
    UnassignedIsAbsent(lines, "buffer_minutes");
    UnassignedIsAbsent(lines, "pretrigger_minutes");
    UnassignedIsAbsent(lines, "posttrigger_minutes");
    UnassignedIsAbsent(lines, "buffer_dir");
    UnassignedIsAbsent(lines, "event_dir");
    UnassignedIsAbsent(lines, "can_iface");
    UnassignedIsAbsent(lines, "warning_ids");
    UnassignedIsAbsent(lines, "button_pin");
  }

  lemma UnassignedIsAbsent(lines: seq<string>, key: string)
    ensures Unassigned(lines, key) ==> key !in KeyValuesOf(lines)
  {
    KeyPresentIffAssigned(lines, key);
  }

  /** Each field of a loaded configuration is its own setting. */
  lemma SettingsFields(kv: KeyValues)
    requires Settings(kv).Ok?
    ensures var c := Settings(kv).value;
      c.segmentSeconds == IntSetting(kv, "segment_seconds", Defaults.segmentSeconds).value &&
      c.bufferMinutes == IntSetting(kv, "buffer_minutes", Defaults.bufferMinutes).value &&
      c.pretriggerMinutes == IntSetting(kv, "pretrigger_minutes", Defaults.pretriggerMinutes).value &&
      c.posttriggerMinutes == IntSetting(kv, "posttrigger_minutes", Defaults.posttriggerMinutes).value &&
      c.bufferDir == TextSetting(kv, "buffer_dir", Defaults.bufferDir) &&
      c.eventDir == TextSetting(kv, "event_dir", Defaults.eventDir) &&
      c.canIface == TextSetting(kv, "can_iface", Defaults.canIface) &&
      c.warningIds == TextSetting(kv, "warning_ids", Defaults.warningIds) &&
      c.buttonPin == IntSetting(kv, "button_pin", Defaults.buttonPin).value
  {
  }

  /** The key is all the text before the first `=`, the value all the text
      after it (later `=` signs included), with nothing trimmed. */
  lemma KeyIsTextBeforeFirstEquals(key: string, value: string)
    requires '=' !in key
    ensures Defines(key + "=" + value, key)
    ensures ValueOf(key + "=" + value) == value
    ensures forall other :: other != key ==> !Defines(key + "=" + value, other)
  {
    var line := key + "=" + value;
    assert line[|key|] == '=' && line[..|key|] == key;
    assert IndexOf(line, '=') == Some(|key|);
    assert line[|key| + 1..] == value;
  }

  /** So `segment_seconds = 30` assigns the key "segment_seconds " (with a
      trailing blank), not "segment_seconds", and the default stays. */
  lemma SpacedKeyIsNotRecognised()
    ensures !Defines("segment_seconds = 30", "segment_seconds")
  {
    var key := "segment_seconds ";
    assert '=' !in key;
    KeyIsTextBeforeFirstEquals(key, " 30");
    assert key + "=" + " 30" == "segment_seconds = 30";
    assert key != "segment_seconds";
  }
}
