/** The checks `VerifySettings` runs on the loaded RS_ASIO settings
    (`Settings/Asio/VerifySettings.cs`): the Focusrite buffer-size fix, the
    WASAPI output question and the search for the configured drivers among
    the installed ASIO drivers. The user's answers to the dialogs and the
    names of the installed drivers are parameters. */
module AsioVerify {
  import opened Wrappers
  import opened Text
  import opened IniCommon
  import opened AsioSettings

  /** What `Settings.Where(section, name)` followed by `Count > 0 ? First()
      : null` and `.Value` sees: `None` when no setting has this section and
      name, otherwise the (possibly null) value of the first that does. */
  function Slot(xs: seq<AsioSetting>, section: string, name: string): Option<Option<Value>>
    reads xs
  {
    var i := FirstMatch(xs, section, name);
    if i < 0 then None else Some(xs[i].value)
  }

  /** The first registered setting with this section and name, if any. */
  function Find(xs: seq<AsioSetting>, section: string, name: string): (r: Option<AsioSetting>)
    ensures r.Some? <==> 0 <= FirstMatch(xs, section, name)
    ensures r.Some? ==> r.value == xs[FirstMatch(xs, section, name)]
  {
    var i := FirstMatch(xs, section, name);
    if i < 0 then None else Some(xs[i])
  }

  /** The four driver settings, in the order both checks list them. */
  const DriverSections: seq<string> := ["Asio.Output", "Asio.Input.0", "Asio.Input.1", "Asio.Input.Mic"]

  /** The labels `VerifyDevicesAreActualASIODevices` gives the drivers. */
  const DriverLabels: seq<string> := ["output", "input0", "input1", "inputMic"]

  function DriverSlots(xs: seq<AsioSetting>): (r: seq<Option<Option<Value>>>)
    reads xs
    ensures |r| == |DriverSections|
    ensures forall k :: 0 <= k < |r| ==> r[k] == Slot(xs, DriverSections[k], "Driver")
  {
    seq(|DriverSections|, k requires 0 <= k < |DriverSections| reads xs => Slot(xs, DriverSections[k], "Driver"))
  }

  /** The answer the user gives to the `p`-th dialog (0-based); dialogs
      beyond the answers given are answered "No". */
  predicate Answer(answers: seq<bool>, p: nat) {
    p < |answers| && answers[p]
  }

  /** `(int)o` on a setting's value: a null value and a boxed string throw. */
  function CastInt(o: Option<Value>): Result<int32, IniError> {
    match o
    case None => Failure(NullValue)
    case Some(IntV(i)) => Success(i)
    case Some(StrV(_)) => Failure(InvalidCast)
  }

  /** Assigning the first registered setting of its section and name
      through its setter: it holds the value, no other setting changes, and
      unless the setting was still initialising the file is rewritten. */
  method Assign(store: AsioStore, i: int, v: Value)
    requires 0 <= i < |store.loaded| && i == FirstMatch(store.loaded, store.loaded[i].section, store.loaded[i].name)
    modifies store, store.loaded
    ensures store.loaded == old(store.loaded) && store.cache == old(store.cache)
    ensures store.loaded[i].value == Some(v)
    ensures forall o :: o in store.loaded && o != store.loaded[i] ==> o.value == old(o.value) && o.alreadyInit == old(o.alreadyInit)
    ensures !old(store.loaded[i].alreadyInit) ==> store.fileExists && store.file == Render(ViewsOf(store.loaded), true)
  {
    var setting := store.loaded[i];
    var _ := setting.SetValue(store, v);
  }

  // ------------------------------------------------------------------
  // FixFocusriteBuffer

  /** The driver's name mentions Focusrite, ignoring case. */
  predicate IsFocusrite(v: Value) {
    Contains(ToLower(Display(v)), "focusrite")
  }

  /** What the body of the device loop does for one entry of the device
      list, before any dialog: skip it, throw, or ask. */
  datatype Verdict = Pass | Throw(error: IniError) | Ask

  /** The body's tests in the order the code evaluates them: an absent
      device or one that is not Focusrite is skipped; a buffer mode other
      than "custom" (ignoring case) skips without looking at the size; a
      custom size that is a multiple of 48 skips; otherwise the user is
      asked. The `%` of C# truncates, but whether the remainder is zero does
      not depend on that. */
  function DeviceVerdict(device: Option<Option<Value>>, mode: Option<Value>, size: Option<Value>): Verdict {
    match device
    case None => Pass
    case Some(None) => Throw(NullValue)
    case Some(Some(d)) =>
      if !IsFocusrite(d) then Pass
      else if mode.None? then Throw(NullValue)
      else if ToLower(Display(mode.value)) != "custom" then Pass
      else match CastInt(size)
        case Failure(e) => Throw(e)
        case Success(n) => if n as int % 48 != 0 then Ask else Pass
  }

  /** The loop's outcome: how many dialogs were shown and whether the user
      accepted the fix (which ends the loop). */
  datatype Outcome = Outcome(prompts: nat, fixed: bool)

  /** The device loop over `devices` when `asked` dialogs have been shown
      already. */
  function Scan(devices: seq<Option<Option<Value>>>, mode: Option<Value>, size: Option<Value>, answers: seq<bool>, asked: nat): Result<Outcome, IniError>
    decreases |devices|
  {
    if devices == [] then Success(Outcome(asked, false))
    else match DeviceVerdict(devices[0], mode, size)
      case Pass => Scan(devices[1..], mode, size, answers, asked)
      case Throw(e) => Failure(e)
      case Ask =>
        if Answer(answers, asked) then Success(Outcome(asked + 1, true))
        else Scan(devices[1..], mode, size, answers, asked + 1)
  }

  /** The buffer size needs fixing: the mode is "custom" and the custom size
      is an int that is not a multiple of 48. */
  predicate NeedsFix(mode: Option<Value>, size: Option<Value>) {
    && mode.Some? && ToLower(Display(mode.value)) == "custom"
    && CastInt(size).Success? && CastInt(size).value as int % 48 != 0
  }

  /** A dialog is shown, and the fix made, only when the buffer needs fixing
      and some configured driver is Focusrite; the fix is made only when the
      last dialog shown was answered "Yes", and every dialog before it was
      answered "No". */
  lemma {:induction false} ScanAsks(devices: seq<Option<Option<Value>>>, mode: Option<Value>, size: Option<Value>, answers: seq<bool>, asked: nat)
    ensures var r := Scan(devices, mode, size, answers, asked);
      r.Success? ==>
        && asked <= r.value.prompts
        && (r.value.prompts > asked ==>
              && NeedsFix(mode, size)
              && exists k :: 0 <= k < |devices| && devices[k].Some? && devices[k].value.Some? && IsFocusrite(devices[k].value.value))
        && (r.value.fixed <==> r.value.prompts > asked && Answer(answers, r.value.prompts - 1))
        && (forall p :: asked <= p < r.value.prompts - 1 ==> !Answer(answers, p))
    decreases |devices|
  {
    if devices != [] {
      ScanAsks(devices[1..], mode, size, answers, if DeviceVerdict(devices[0], mode, size) == Ask then asked + 1 else asked);
      var r := Scan(devices, mode, size, answers, asked);
      if r.Success? && r.value.prompts > asked && DeviceVerdict(devices[0], mode, size) != Ask {
        var k :| 0 <= k < |devices[1..]| && devices[1..][k].Some? && devices[1..][k].value.Some? && IsFocusrite(devices[1..][k].value.value);
        assert devices[k + 1] == devices[1..][k];
      }
    }
  }

  /** When the mode is not "custom", or the custom size is an int multiple
      of 48, no dialog is shown and nothing is fixed (given no configured
      driver's value is null, which throws). */
  lemma {:induction false} ScanQuiet(devices: seq<Option<Option<Value>>>, mode: Option<Value>, size: Option<Value>, answers: seq<bool>, asked: nat)
    requires mode.Some?
    requires ToLower(Display(mode.value)) != "custom" || (CastInt(size).Success? && CastInt(size).value as int % 48 == 0)
    requires forall k :: 0 <= k < |devices| ==> devices[k] != Some(None)
    ensures Scan(devices, mode, size, answers, asked) == Success(Outcome(asked, false))
    decreases |devices|
  {
    if devices != [] {
      assert forall k :: 0 <= k < |devices[1..]| ==> devices[1..][k] == devices[k + 1];
      ScanQuiet(devices[1..], mode, size, answers, asked);
    }
  }

  /** Declining every dialog leaves the buffer as it was: with a
      Focusrite driver configured and the buffer needing a fix, the user is
      asked once per Focusrite driver. */
  lemma {:induction false} ScanDeclined(devices: seq<Option<Option<Value>>>, mode: Option<Value>, size: Option<Value>, asked: nat)
    requires NeedsFix(mode, size)
    requires forall k :: 0 <= k < |devices| ==> devices[k] != Some(None)
    ensures Scan(devices, mode, size, [], asked) == Success(Outcome(asked + FocusriteCount(devices), false))
    decreases |devices|
  {
    if devices != [] {
      assert forall k :: 0 <= k < |devices[1..]| ==> devices[1..][k] == devices[k + 1];
      ScanDeclined(devices[1..], mode, size, if DeviceVerdict(devices[0], mode, size) == Ask then asked + 1 else asked);
    }
  }

  /** The number of configured Focusrite drivers in the list. */
  function FocusriteCount(devices: seq<Option<Option<Value>>>): nat {
    if devices == [] then 0
    else
      var here := if devices[0].Some? && devices[0].value.Some? && IsFocusrite(devices[0].value.value) then 1 else 0;
      here + FocusriteCount(devices[1..])
  }

  /** `FixFocusriteBuffer`. Nothing happens unless both Asio/BufferSizeMode
      and Asio/CustomBufferSize are registered; otherwise the device loop
      runs as `Scan` says, and accepting the fix sets CustomBufferSize to 48
      through its setter (which rewrites the file) and leaves every other
      setting alone. */
  method FixFocusriteBuffer(store: AsioStore, answers: seq<bool>) returns (r: Result<Outcome, IniError>)
    modifies store, store.loaded
    ensures store.loaded == old(store.loaded) && store.cache == old(store.cache)
    ensures var mode := old(Slot(store.loaded, "Asio", "BufferSizeMode"));
      var size := old(Slot(store.loaded, "Asio", "CustomBufferSize"));
      r == if mode.None? || size.None? then Success(Outcome(0, false))
           else Scan(old(DriverSlots(store.loaded)), mode.value, size.value, answers, 0)
    ensures !(r.Success? && r.value.fixed) ==>
      && store.file == old(store.file) && store.fileExists == old(store.fileExists)
      && forall o :: o in store.loaded ==> o.value == old(o.value) && o.alreadyInit == old(o.alreadyInit)
    ensures r.Success? && r.value.fixed ==>
      var i := FirstMatch(store.loaded, "Asio", "CustomBufferSize");
      && 0 <= i
      && store.loaded[i].value == Some(IntV(48))
      && (forall o :: o in store.loaded && o != store.loaded[i] ==> o.value == old(o.value) && o.alreadyInit == old(o.alreadyInit))
      && (!old(store.loaded[i].alreadyInit) ==> store.fileExists && store.file == Render(ViewsOf(store.loaded), true))
  {
    var devices := [Slot(store.loaded, "Asio.Output", "Driver"), Slot(store.loaded, "Asio.Input.0", "Driver"),
                    Slot(store.loaded, "Asio.Input.1", "Driver"), Slot(store.loaded, "Asio.Input.Mic", "Driver")];
    assert devices == DriverSlots(store.loaded);
    var bufferSizeMode := Slot(store.loaded, "Asio", "BufferSizeMode");
    var customBufferSize := Slot(store.loaded, "Asio", "CustomBufferSize");
    if bufferSizeMode.None? || customBufferSize.None? {
      return Success(Outcome(0, false));
    }
    r := ScanDevices(devices, bufferSizeMode.value, customBufferSize.value, answers);
    if r.Success? && r.value.fixed {
      Assign(store, FirstMatch(store.loaded, "Asio", "CustomBufferSize"), IntV(48));
    }
  }

  /** The device loop of `FixFocusriteBuffer` over the drivers' values, up
      to the `break` after an accepted fix (whose assignment the caller
      makes). */
  method ScanDevices(devices: seq<Option<Option<Value>>>, mode: Option<Value>, size: Option<Value>, answers: seq<bool>)
    returns (r: Result<Outcome, IniError>)
    ensures r == Scan(devices, mode, size, answers, 0)
  {
    var i := 0;
    var asked := 0;
    while i < |devices|
      invariant 0 <= i <= |devices|
      invariant Scan(devices, mode, size, answers, 0) == Scan(devices[i..], mode, size, answers, asked)
    {
      assert devices[i..][1..] == devices[i + 1..];
      var device := devices[i];
      if device.None? {
        i := i + 1;
        continue;
      }
      if device.value.None? {
        return Failure(NullValue);
      }
      if !IsFocusrite(device.value.value) {
        i := i + 1;
        continue;
      }
      if mode.None? {
        return Failure(NullValue);
      }
      if ToLower(Display(mode.value)) == "custom" {
        var n := CastInt(size);
        if n.Failure? {
          return Failure(n.error);
        }
        if n.value as int % 48 != 0 {
          if Answer(answers, asked) {
            return Success(Outcome(asked + 1, true));
          }
          asked := asked + 1;
        }
      }
      i := i + 1;
    }
    r := Success(Outcome(asked, false));
  }

  // ------------------------------------------------------------------
  // CheckWasapiState

  /** The value the answer calls for: 1 for headphones on the computer
      ("Yes"), 0 for headphones on the interface ("No"). */
  function WasapiTarget(onComputer: bool): int32 {
    if onComputer then 1 else 0
  }

  /** Whether the setter runs: never for an absent setting; the cast throws
      on a null or string value; otherwise exactly when the value differs
      from the target. */
  function WasapiPlan(slot: Option<Option<Value>>, onComputer: bool): (r: Result<bool, IniError>)
    ensures slot.None? ==> r == Success(false)
    ensures slot.Some? ==> (r.Success? <==> CastInt(slot.value).Success?)
    ensures r == Success(true) <==> slot.Some? && CastInt(slot.value).Success? && CastInt(slot.value).value != WasapiTarget(onComputer)
  {
    match slot
    case None => Success(false)
    case Some(o) =>
      match CastInt(o)
      case Failure(e) => Failure(e)
      case Success(n) => Success(n != WasapiTarget(onComputer))
  }

  /** `CheckWasapiState`: afterwards a registered Config/EnableWasapiOutputs
      holds the value the answer calls for; it is assigned only when it held
      a different int, and nothing else changes unless it is. */
  method CheckWasapiState(store: AsioStore, onComputer: bool) returns (r: Result<bool, IniError>)
    modifies store, store.loaded
    ensures store.loaded == old(store.loaded) && store.cache == old(store.cache)
    ensures r == WasapiPlan(old(Slot(store.loaded, "Config", "EnableWasapiOutputs")), onComputer)
    ensures r != Success(true) ==>
      && store.file == old(store.file) && store.fileExists == old(store.fileExists)
      && forall o :: o in store.loaded ==> o.value == old(o.value) && o.alreadyInit == old(o.alreadyInit)
    ensures var i := FirstMatch(store.loaded, "Config", "EnableWasapiOutputs");
      r.Success? && 0 <= i ==> store.loaded[i].value == Some(IntV(WasapiTarget(onComputer)))
    ensures r == Success(true) ==>
      var i := FirstMatch(store.loaded, "Config", "EnableWasapiOutputs");
      && (forall o :: o in store.loaded && o != store.loaded[i] ==> o.value == old(o.value) && o.alreadyInit == old(o.alreadyInit))
      && (!old(store.loaded[i].alreadyInit) ==> store.fileExists && store.file == Render(ViewsOf(store.loaded), true))
  {
    var wasapiOutputSetting := Find(store.loaded, "Config", "EnableWasapiOutputs");
    if wasapiOutputSetting.None? {
      return Success(false);
    }
    var n := CastInt(wasapiOutputSetting.value.value);
    if n.Failure? {
      return Failure(n.error);
    }
    var target := WasapiTarget(onComputer);
    if n.value != target {
      Assign(store, FirstMatch(store.loaded, "Config", "EnableWasapiOutputs"), IntV(target));
      return Success(true);
    }
    r := Success(false);
  }

  // ------------------------------------------------------------------
  // VerifyDevicesAreActualASIODevices

  /** The dialogs the driver check shows. */
  datatype Notice =
    | Asio4AllWarning(driver: string)   // WarnAboutASIO4All
    | DeviceNotFound(role: string)     // "We couldn't find the ASIO <role> device ..."

  /** The `devices` dictionary: the label and driver name of every present
      driver whose value is not empty, in insertion order; a present driver
      with a null value throws. */
  function Configured(slots: seq<Option<Option<Value>>>, labels: seq<string>): (r: Result<seq<(string, string)>, IniError>)
    requires |slots| == |labels|
    decreases |slots|
  {
    if slots == [] then Success([])
    else
      var init := Configured(slots[..|slots| - 1], labels[..|labels| - 1]);
      var last := slots[|slots| - 1];
      if init.Failure? then init
      else match last
        case None => init
        case Some(None) => Failure(NullValue)
        case Some(Some(v)) => if Display(v) == "" then init else Success(init.value + [(labels[|labels| - 1], Display(v))])
  }

  /** The driver is ASIO4All, ignoring case. */
  predicate IsAsio4All(driver: string) {
    Contains(ToLower(driver), "asio4all")
  }

  /** The dialogs for one configured driver: the ASIO4All warning first,
      then "not found" unless an installed driver has exactly that name. */
  function DeviceNotices(device: (string, string), installed: seq<string>): seq<Notice> {
    (if IsAsio4All(device.1) then [Asio4AllWarning(device.1)] else [])
      + (if device.1 in installed then [] else [DeviceNotFound(device.0)])
  }

  function Report(devices: seq<(string, string)>, installed: seq<string>): seq<Notice> {
    if devices == [] then [] else Report(devices[..|devices| - 1], installed) + DeviceNotices(devices[|devices| - 1], installed)
  }

  /** The dictionary throws exactly when a present driver's value is null;
      otherwise it holds a (label, name) pair exactly for the present drivers
      with a non-empty name, and no label twice. */
  lemma {:induction false} ConfiguredSpec(slots: seq<Option<Option<Value>>>, labels: seq<string>)
    requires |slots| == |labels|
    requires forall i, j :: 0 <= i < j < |labels| ==> labels[i] != labels[j]
    ensures var r := Configured(slots, labels);
      && (r.Failure? <==> exists k :: 0 <= k < |slots| && slots[k] == Some(None))
      && (r.Failure? ==> r.error == NullValue)
      && (r.Success? ==> forall i, j :: 0 <= i < j < |r.value| ==> r.value[i].0 != r.value[j].0)
      && (r.Success? ==> forall role, driver :: (role, driver) in r.value <==>
            exists k :: 0 <= k < |slots| && labels[k] == role && slots[k].Some? && slots[k].value.Some?
              && Display(slots[k].value.value) == driver && driver != "")
    decreases |slots|
  {
    if slots != [] {
      var n := |slots| - 1;
      var s0, l0 := slots[..n], labels[..n];
      assert forall k :: 0 <= k < n ==> s0[k] == slots[k] && l0[k] == labels[k];
      ConfiguredSpec(s0, l0);
      var init := Configured(s0, l0);
      var r := Configured(slots, labels);
      if init.Success? && r.Success? && r != init {
        forall i | 0 <= i < |init.value|
          ensures init.value[i].0 != labels[n]
        {
          assert init.value[i] in init.value;
        }
      }
    }
  }

  /** A driver is reported missing exactly when it is configured and no
      installed driver has exactly its name (the comparison is ordinal, so
      case matters); the ASIO4All warning is shown exactly for configured
      drivers whose name contains "asio4all", ignoring case. */
  lemma {:induction false} ReportSpec(devices: seq<(string, string)>, installed: seq<string>)
    requires forall i, j :: 0 <= i < j < |devices| ==> devices[i].0 != devices[j].0
    ensures forall role :: DeviceNotFound(role) in Report(devices, installed) <==>
      exists k :: 0 <= k < |devices| && devices[k].0 == role && devices[k].1 !in installed
    ensures forall d :: Asio4AllWarning(d) in Report(devices, installed) <==>
      exists k :: 0 <= k < |devices| && devices[k].1 == d && IsAsio4All(d)
    decreases |devices|
  {
    if devices != [] {
      var init := devices[..|devices| - 1];
      ReportSpec(init, installed);
      assert forall k :: 0 <= k < |init| ==> init[k] == devices[k];
    }
  }

  /** `VerifyDevicesAreActualASIODevices`, with the names `FindDevices`
      returns as `installed`: every configured driver is looked up among
      them with the `foundDevice` loop, in dictionary order. Nothing
      changes. */
  method VerifyDevices(store: AsioStore, installed: seq<string>) returns (r: Result<seq<Notice>, IniError>)
    ensures var c := Configured(DriverSlots(store.loaded), DriverLabels);
      r == if c.Failure? then Failure(c.error) else Success(Report(c.value, installed))
  {
    var slots := [Slot(store.loaded, "Asio.Output", "Driver"), Slot(store.loaded, "Asio.Input.0", "Driver"),
                  Slot(store.loaded, "Asio.Input.1", "Driver"), Slot(store.loaded, "Asio.Input.Mic", "Driver")];
    assert slots == DriverSlots(store.loaded);
    var configured := Configured(slots, DriverLabels);
    if configured.Failure? {
      return Failure(configured.error);
    }
    var devices := configured.value;
    var notices: seq<Notice> := [];
    var d := 0;
    while d < |devices|
      invariant 0 <= d <= |devices|
      invariant notices == Report(devices[..d], installed)
    {
      var device := devices[d];
      ghost var before := notices;
      if IsAsio4All(device.1) {
        notices := notices + [Asio4AllWarning(device.1)];
      }
      var foundDevice := FindDevice(installed, device.1);
      if !foundDevice {
        notices := notices + [DeviceNotFound(device.0)];
      }
      assert notices == before + DeviceNotices(device, installed);
      assert devices[..d + 1][..d] == devices[..d];
      d := d + 1;
    }
    assert devices[..d] == devices;
    r := Success(notices);
  }

  /** The inner loop of the driver check: is an installed driver named
      exactly `driver`? */
  method FindDevice(installed: seq<string>, driver: string) returns (foundDevice: bool)
    ensures foundDevice <==> driver in installed
  {
    foundDevice := false;
    var a := 0;
    while a < |installed|
      invariant 0 <= a <= |installed|
      invariant !foundDevice && driver !in installed[..a]
    {
      if installed[a] == driver {
        foundDevice := true;
        break;
      }
      assert installed[..a + 1] == installed[..a] + [installed[a]];
      a := a + 1;
    }
    assert !foundDevice ==> installed[..a] == installed;
  }

  /** A driver is reported missing exactly when its setting is present,
      its name is not empty and no installed driver has exactly that name. */
  lemma {:induction false} MissingDriverSpec(slots: seq<Option<Option<Value>>>, installed: seq<string>)
    requires |slots| == |DriverLabels| && Configured(slots, DriverLabels).Success?
    ensures forall role :: DeviceNotFound(role) in Report(Configured(slots, DriverLabels).value, installed) <==>
      exists k :: 0 <= k < |slots| && DriverLabels[k] == role && slots[k].Some? && slots[k].value.Some?
        && Display(slots[k].value.value) != "" && Display(slots[k].value.value) !in installed
  {
    var c := Configured(slots, DriverLabels);
    ConfiguredSpec(slots, DriverLabels);
    ReportSpec(c.value, installed);
    forall role
      ensures DeviceNotFound(role) in Report(c.value, installed) ==>
        exists k :: 0 <= k < |slots| && DriverLabels[k] == role && slots[k].Some? && slots[k].value.Some?
          && Display(slots[k].value.value) != "" && Display(slots[k].value.value) !in installed
    {
      if DeviceNotFound(role) in Report(c.value, installed) {
        var j :| 0 <= j < |c.value| && c.value[j].0 == role && c.value[j].1 !in installed;
        assert (role, c.value[j].1) in c.value;
      }
    }
    forall role, k | 0 <= k < |slots| && DriverLabels[k] == role && slots[k].Some? && slots[k].value.Some?
          && Display(slots[k].value.value) != "" && Display(slots[k].value.value) !in installed
      ensures DeviceNotFound(role) in Report(c.value, installed)
    {
      var pair := (role, Display(slots[k].value.value));
      assert pair in c.value;
      var j :| 0 <= j < |c.value| && c.value[j] == pair;
    }
  }

  /** The ASIO4All warning is given exactly for the names of present drivers
      that contain "asio4all", ignoring case. */
  lemma {:induction false} Asio4AllSpec(slots: seq<Option<Option<Value>>>, installed: seq<string>)
    requires |slots| == |DriverLabels| && Configured(slots, DriverLabels).Success?
    ensures forall d :: Asio4AllWarning(d) in Report(Configured(slots, DriverLabels).value, installed) <==>
      exists k :: 0 <= k < |slots| && slots[k].Some? && slots[k].value.Some?
        && Display(slots[k].value.value) == d && d != "" && IsAsio4All(d)
  {
    var c := Configured(slots, DriverLabels);
    ConfiguredSpec(slots, DriverLabels);
    ReportSpec(c.value, installed);
    forall d | Asio4AllWarning(d) in Report(c.value, installed)
      ensures exists k :: 0 <= k < |slots| && slots[k].Some? && slots[k].value.Some?
                && Display(slots[k].value.value) == d && d != "" && IsAsio4All(d)
    {
      var j :| 0 <= j < |c.value| && c.value[j].1 == d && IsAsio4All(d);
      assert (c.value[j].0, d) in c.value;
    }
    forall d, k | 0 <= k < |slots| && slots[k].Some? && slots[k].value.Some?
        && Display(slots[k].value.value) == d && d != "" && IsAsio4All(d)
      ensures Asio4AllWarning(d) in Report(c.value, installed)
    {
      assert (DriverLabels[k], d) in c.value;
      var j :| 0 <= j < |c.value| && c.value[j] == (DriverLabels[k], d);
    }
  }

  /** The driver check as a whole: it throws exactly when a present driver
      setting holds null; otherwise a driver is reported missing exactly when
      its setting is present, its name is not empty and no installed driver
      has exactly that name, and the ASIO4All warning is given exactly for
      the names of present drivers that contain "asio4all", ignoring case. */
  lemma {:induction false} DriverCheckSpec(slots: seq<Option<Option<Value>>>, installed: seq<string>)
    requires |slots| == |DriverLabels|
    ensures var c := Configured(slots, DriverLabels);
      && (c.Failure? <==> exists k :: 0 <= k < |slots| && slots[k] == Some(None))
      && (c.Success? ==> forall role :: DeviceNotFound(role) in Report(c.value, installed) <==>
            exists k :: 0 <= k < |slots| && DriverLabels[k] == role && slots[k].Some? && slots[k].value.Some?
              && Display(slots[k].value.value) != "" && Display(slots[k].value.value) !in installed)
      && (c.Success? ==> forall d :: Asio4AllWarning(d) in Report(c.value, installed) <==>
            exists k :: 0 <= k < |slots| && slots[k].Some? && slots[k].value.Some?
              && Display(slots[k].value.value) == d && d != "" && IsAsio4All(d))
  {
    ConfiguredSpec(slots, DriverLabels);
    if Configured(slots, DriverLabels).Success? {
      MissingDriverSpec(slots, installed);
      Asio4AllSpec(slots, installed);
    }
  }

  /** What the three checks report. */
  datatype Verification = Verification(notices: seq<Notice>, focusrite: Outcome, wasapiAssigned: bool)

  /** The `VerifySettings` constructor: the driver check, then the Focusrite
      fix, then the WASAPI question; an exception in one ends the run. On
      success the driver dialogs are those of the settings as they were, and
      a registered Config/EnableWasapiOutputs holds the answer's value. */
  method Verify(store: AsioStore, installed: seq<string>, answers: seq<bool>, onComputer: bool) returns (r: Result<Verification, IniError>)
    modifies store, store.loaded
    ensures store.loaded == old(store.loaded) && store.cache == old(store.cache)
    ensures var c := old(Configured(DriverSlots(store.loaded), DriverLabels));
      && (c.Failure? ==> r == Failure(c.error) && store.file == old(store.file))
      && (r.Success? ==> c.Success? && r.value.notices == Report(c.value, installed))
    ensures var i := FirstMatch(store.loaded, "Config", "EnableWasapiOutputs");
      r.Success? && 0 <= i ==> store.loaded[i].value == Some(IntV(WasapiTarget(onComputer)))
  {
    var notices := VerifyDevices(store, installed);
    if notices.Failure? {
      return Failure(notices.error);
    }
    var focusrite := FixFocusriteBuffer(store, answers);
    if focusrite.Failure? {
      return Failure(focusrite.error);
    }
    var wasapi := CheckWasapiState(store, onComputer);
    if wasapi.Failure? {
      return Failure(wasapi.error);
    }
    r := Success(Verification(notices.value, focusrite.value, wasapi.value));
  }
}
