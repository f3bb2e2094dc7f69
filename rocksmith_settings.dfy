/** Rocksmith.ini: the `Settings` objects of the game's own settings and the
    static state of its `LoadSettings` class (the registered settings, the
    flat name -> value cache of the file, and the file itself). Unlike
    RS_ASIO.ini, section headers are skipped when reading and every name
    shares one dictionary. */
module RocksmithSettings {
  import opened Wrappers
  import opened Text
  import opened IniCommon

  /** `SettingsFile_Cache`: setting name -> cached object. */
  type FlatCache = map<string, Value>

  /** What one line of Rocksmith.ini is to the reader. */
  datatype LineKind =
    | Skip
    | KeyLine(name: string, text: string)
    | Broken(error: IniError)

  /** Blank lines and `[` lines are skipped; any other line (a `;` comment
      too) is split at its first `=`. */
  function ClassifyLine(line: string): LineKind {
    if |line| == 0 || line[0] == '[' then Skip
    else
      var eq := IndexOf(line, '=');
      if eq < 0 then Broken(MissingSeparator(line)) else KeyLine(line[..eq], line[eq + 1..])
  }

  /** The cached object for a name, if any. */
  function Lookup(c: FlatCache, name: string): Option<Value> {
    if name in c then Some(c[name]) else None
  }

  /** The reading loop's state: the cache and the exception that ended the
      loop, if one did. */
  datatype ParseState = ParseState(cache: FlatCache, error: Option<IniError>)

  const StartState: ParseState := ParseState(map[], None)

  /** One line: `Dictionary.Add` of its name and text, which throws when the
      name is already cached. */
  function Step(st: ParseState, line: string): ParseState {
    if st.error.Some? then st
    else
      match ClassifyLine(line)
      case Skip => st
      case KeyLine(n, t) =>
        if n in st.cache then st.(error := Some(DuplicateKey(n))) else st.(cache := st.cache[n := StrV(t)])
      case Broken(e) => st.(error := Some(e))
  }

  /** The reading loop over the lines of Rocksmith.ini. */
  function Parse(lines: seq<string>, st: ParseState): ParseState {
    if lines == [] then st else Parse(lines[1..], Step(st, lines[0]))
  }

  /** The cache with the default stored for a name it lacks. */
  function WithDefault(c: FlatCache, name: string, default: Value): FlatCache {
    if name in c then c else c[name := default]
  }

  /** `ReadPreviousSetting(name, default)`: with an empty cache, read the
      file into it (`parsed`, the outcome of reading the file from the empty
      cache) and store the default if no line named the setting; then read
      the cached object, storing the default first if it is missing. The
      cached object itself is the result (`CoercedRead` turns it into what
      the method returns). */
  function ReadSpec(c: FlatCache, fileExists: bool, parsed: ParseState, name: string, default: Value)
    : (FlatCache, Result<Value, IniError>)
  {
    if |c| != 0 then
      var c' := WithDefault(c, name, default);
      (c', Success(c'[name]))
    else if !fileExists then (c, Failure(SettingsFileMissing))
    else if parsed.error.Some? then (parsed.cache, Failure(parsed.error.value))
    else
      var c' := WithDefault(parsed.cache, name, default);
      (c', Success(c'[name]))
  }

  /** Once the loop has thrown, the remaining lines change nothing. */
  lemma {:induction false} ErrorSticks(lines: seq<string>, st: ParseState)
    requires st.error.Some?
    ensures Parse(lines, st) == st
    decreases |lines|
  {
    if lines != [] {
      ErrorSticks(lines[1..], st);
    }
  }

  /** The position of the first registered setting with this name, whatever
      its section (what `Where(...).First()` picks), or -1 when there is
      none. */
  function FirstNamed(xs: seq<RsSetting>, name: string): (r: int)
    ensures -1 <= r < |xs|
    ensures 0 <= r ==> xs[r].name == name
  {
    if xs == [] then -1
    else
      var k := FirstNamed(xs[..|xs| - 1], name);
      if 0 <= k then k
      else if xs[|xs| - 1].name == name then |xs| - 1
      else -1
  }

  /** No setting before the one `FirstNamed` finds has this name, and it
      finds none exactly when no setting has it. */
  lemma {:induction false} FirstNamedSpec(xs: seq<RsSetting>, name: string)
    ensures 0 <= FirstNamed(xs, name) ==> forall k :: 0 <= k < FirstNamed(xs, name) ==> xs[k].name != name
    ensures FirstNamed(xs, name) == -1 <==> forall k :: 0 <= k < |xs| ==> xs[k].name != name
  {
    if xs != [] {
      FirstNamedSpec(xs[..|xs| - 1], name);
    }
  }

  function ViewsOf(xs: seq<RsSetting>): (r: seq<View>)
    reads xs
    ensures |r| == |xs| && forall k :: 0 <= k < |xs| ==> r[k] == xs[k].Snapshot()
  {
    if xs == [] then [] else ViewsOf(xs[..|xs| - 1]) + [xs[|xs| - 1].Snapshot()]
  }

  /** One Rocksmith setting (`Settings/Rocksmith/Settings.cs`). */
  class RsSetting {
    const section: string
    const name: string
    const defaultValue: Value
    var value: Option<Value>
    var alreadyInit: bool

    /** The field initialisations of the constructor. */
    constructor (section: string, name: string, defaultValue: Value)
      ensures this.section == section && this.name == name && this.defaultValue == defaultValue
      ensures value == None && alreadyInit
    {
      this.section := section;
      this.name := name;
      this.defaultValue := defaultValue;
      value := None;
      alreadyInit := true;
    }

    function Snapshot(): View
      reads this
    {
      View(section, name, defaultValue, value)
    }

    /** The `Value` setter. The first assignment after construction only
        stores the value and clears `alreadyInit`; later ones also update the
        first registered setting of the same name and rewrite the file
        (`Propagate`). */
    method SetValue(store: RsStore, v: Value) returns (r: Result<(), IniError>)
      modifies this, store, store.loaded
      ensures value == Some(v) && !alreadyInit
      ensures store.loaded == old(store.loaded) && store.cache == old(store.cache)
      ensures old(alreadyInit) ==>
        && r.Success?
        && store.file == old(store.file) && store.fileExists == old(store.fileExists)
        && forall o :: o in store.loaded && o != this ==> o.value == old(o.value) && o.alreadyInit == old(o.alreadyInit)
      ensures !old(alreadyInit) ==>
        var valid := old(store.HasValidSettingsFile());
        var i := FirstNamed(store.loaded, name);
        var touched := valid && 0 <= i && store.loaded[i] != this && old(store.loaded[i].value) != Some(v);
        && (valid && i < 0 ==> r == Failure(NoSuchSetting(name)) && store.file == old(store.file) && store.fileExists == old(store.fileExists))
        && (!(valid && i < 0) ==> r.Success? && store.fileExists && store.file == Render(ViewsOf(store.loaded), false))
        && (forall o :: o in store.loaded && o != this ==>
              && o.value == (if touched && o == store.loaded[i] then Some(v) else old(o.value))
              && o.alreadyInit == (if touched && o == store.loaded[i] then false else old(o.alreadyInit)))
      decreases Rank(store.loaded), 2
    {
      if !alreadyInit {
        value := Some(v);
        r := Propagate(store, v);
      } else {
        Store(v);
        r := Success(());
      }
    }

    /** The setter while `alreadyInit` holds (the assignment made by the
        constructor): store the value and end the initialisation. */
    method Store(v: Value)
      modifies this
      ensures value == Some(v) && !alreadyInit
    {
      value := Some(v);
      alreadyInit := false;
    }

    /** 0 for the first registered setting of its name, 1 for any other: the
        setter recurses at most once. */
    function Rank(xs: seq<RsSetting>): nat {
      var i := FirstNamed(xs, name);
      if 0 <= i && xs[i] == this then 0 else 1
    }

    /** The part of the setter that runs once the object is initialised:
        the registered copy is brought up to date (`SyncFirst`), then the
        file is rewritten. */
    method Propagate(store: RsStore, v: Value) returns (r: Result<(), IniError>)
      requires value == Some(v) && !alreadyInit
      modifies store, store.loaded
      ensures value == Some(v) && !alreadyInit
      ensures store.loaded == old(store.loaded) && store.cache == old(store.cache)
      ensures var valid := old(store.HasValidSettingsFile());
        var i := FirstNamed(store.loaded, name);
        var touched := valid && 0 <= i && old(store.loaded[i].value) != Some(v);
        && (valid && i < 0 ==> r == Failure(NoSuchSetting(name)) && store.file == old(store.file) && store.fileExists == old(store.fileExists))
        && (!(valid && i < 0) ==> r.Success? && store.fileExists && store.file == Render(ViewsOf(store.loaded), false))
        && (forall o :: o in store.loaded ==>
              && o.value == (if touched && o == store.loaded[i] then Some(v) else old(o.value))
              && o.alreadyInit == (if touched && o == store.loaded[i] then false else old(o.alreadyInit)))
      decreases Rank(store.loaded), 1
    {
      r := SyncFirst(store, v);
      if r.Success? {
        r := store.WriteSettingsFile(None);
      }
    }

    /** With a valid file, the first registered setting of the same name (in
        any section) gets the value through its own setter unless it already
        holds it; when there is none, `First` throws. */
    method SyncFirst(store: RsStore, v: Value) returns (r: Result<(), IniError>)
      requires value == Some(v) && !alreadyInit
      modifies store, store.loaded
      ensures value == Some(v) && !alreadyInit
      ensures store.loaded == old(store.loaded) && store.cache == old(store.cache)
      ensures var valid := old(store.HasValidSettingsFile());
        var i := FirstNamed(store.loaded, name);
        var touched := valid && 0 <= i && old(store.loaded[i].value) != Some(v);
        && (r.Failure? <==> valid && i < 0)
        && (r.Failure? ==> r.error == NoSuchSetting(name) && store.file == old(store.file) && store.fileExists == old(store.fileExists))
        && (forall o :: o in store.loaded ==>
              && o.value == (if touched && o == store.loaded[i] then Some(v) else old(o.value))
              && o.alreadyInit == (if touched && o == store.loaded[i] then false else old(o.alreadyInit)))
      decreases Rank(store.loaded), 0
    {
      r := Success(());
      if store.HasValidSettingsFile() {
        var i := FirstNamed(store.loaded, name);
        if i < 0 {
          return Failure(NoSuchSetting(name));
        }
        var first := store.loaded[i];
        if first.value != Some(v) {
          assert first != this;
          var _ := first.SetValue(store, v);
        }
      }
    }
  }

  /** The registered settings, in the order `LoadSettings()` adds them. */
  const Registered: seq<(string, string, Value)> := [
    ("Audio", "EnableMicrophone", IntV(1)),
    ("Audio", "ExclusiveMode", IntV(1)),
    ("Audio", "LatencyBuffer", IntV(4)),
    ("Audio", "ForceDefaultPlaybackDevice", StrV("")),
    ("Audio", "ForceWDM", IntV(0)),
    ("Audio", "ForceDirectXSink", IntV(0)),
    ("Audio", "DumpAudioLog", IntV(0)),
    ("Audio", "MaxOutputBufferSize", IntV(0)),
    ("Audio", "RealToneCableOnly", IntV(0)),
    ("Audio", "Win32UltraLowLatencyMode", IntV(1)),
    ("Renderer.Win32", "ShowGamepadUI", IntV(0)),
    ("Renderer.Win32", "ScreenWidth", IntV(0)),
    ("Renderer.Win32", "ScreenHeight", IntV(0)),
    ("Renderer.Win32", "Fullscreen", IntV(2)),
    ("Renderer.Win32", "VisualQuality", IntV(1)),
    ("Renderer.Win32", "RenderingWidth", IntV(0)),
    ("Renderer.Win32", "RenderingHeight", IntV(0)),
    ("Renderer.Win32", "EnablePostEffects", IntV(1)),
    ("Renderer.Win32", "EnableShadows", IntV(1)),
    ("Renderer.Win32", "EnableHighResScope", IntV(1)),
    ("Renderer.Win32", "EnableDepthOfField", IntV(1)),
    ("Renderer.Win32", "EnablePerPixelLighting", IntV(1)),
    ("Renderer.Win32", "MsaaSamples", IntV(4)),
    ("Renderer.Win32", "DisableBrowser", IntV(0)),
    ("Net", "UseProxy", IntV(1))
  ]

  /** The static state of Rocksmith's `LoadSettings`, with Rocksmith.ini as
      its lines (`fileExists` false: no file on disk). */
  class RsStore {
    var loaded: seq<RsSetting>
    var cache: FlatCache
    var file: seq<string>
    var fileExists: bool

    constructor (fileExists: bool, file: seq<string>)
      ensures this.fileExists == fileExists && this.file == file
      ensures loaded == [] && cache == map[]
    {
      this.fileExists := fileExists;
      this.file := file;
      loaded := [];
      cache := map[];
    }

    /** `HasValidSettingsFile`: the file exists and is not empty. */
    predicate HasValidSettingsFile()
      reads this
    {
      fileExists && |file| > 0
    }

    /** `Settings.Where(name)`: the first registered setting of this name,
        whatever its section; `First` throws when there is none. */
    function Where(name: string): (r: Result<RsSetting, IniError>)
      reads this
      ensures r.Failure? <==> forall k :: 0 <= k < |loaded| ==> loaded[k].name != name
      ensures r.Failure? ==> r.error == NoSuchSetting(name)
      ensures r.Success? ==> exists i :: 0 <= i < |loaded| && loaded[i] == r.value && r.value.name == name &&
                                          forall k :: 0 <= k < i ==> loaded[k].name != name
    {
      FirstNamedSpec(loaded, name);
      var i := FirstNamed(loaded, name);
      if i < 0 then Failure(NoSuchSetting(name)) else Success(loaded[i])
    }

    /** `WriteSettingsFile(changed)`: the file is recreated (so it is left
        empty when swapping in `changed`, the state of a setting, throws) and
        rewritten from the registered settings, with no comment lines. */
    method WriteSettingsFile(changed: Option<View>) returns (r: Result<(), IniError>)
      modifies this
      ensures loaded == old(loaded) && cache == old(cache) && fileExists
      ensures ViewsOf(loaded) == old(ViewsOf(loaded))
      ensures (r, file) == WriteOutcome(WriteSpec(old(ViewsOf(loaded)), changed, false))
      ensures changed.None? ==> r.Success? && file == Render(old(ViewsOf(loaded)), false)
    {
      var vs := ViewsOf(loaded);
      var w := SerializeSettings(vs, changed, false);
      fileExists := true;
      r, file := WriteOutcome(w).0, WriteOutcome(w).1;
    }

    /** `ReadPreviousSetting(name, default)`. */
    method ReadPreviousSetting(name: string, default: Value) returns (r: Result<Value, IniError>)
      modifies this
      ensures loaded == old(loaded) && file == old(file) && fileExists == old(fileExists)
      ensures cache == ReadSpec(old(cache), fileExists, Parse(file, StartState), name, default).0
      ensures r == CoercedRead(ReadSpec(old(cache), fileExists, Parse(file, StartState), name, default).1)
      decreases if |cache| == 0 then 1 else 0
    {
      if |cache| == 0 {
        if !fileExists {
          return Failure(SettingsFileMissing);
        }
        assert cache == map[];
        var err, settingExistsInSettingsFile := ReadFile(name);
        if err.Some? {
          return Failure(err.value);
        }
        if !settingExistsInSettingsFile {
          cache := cache[name := default];
        }
        assert name in cache;
        r := ReadPreviousSetting(name, default);
      } else {
        if name !in cache {
          cache := cache[name := default];
        }
        var output := cache[name];
        r := Success(Coerce(output));
      }
    }

    /** The reading loop: every line of the file into the cache, noting
        whether a line names `name`. */
    method ReadFile(name: string) returns (err: Option<IniError>, settingExistsInSettingsFile: bool)
      modifies this
      ensures loaded == old(loaded) && file == old(file) && fileExists == old(fileExists)
      ensures var p := Parse(file, ParseState(old(cache), None)); cache == p.cache && err == p.error
      ensures err.None? ==> (settingExistsInSettingsFile <==> name in cache && name !in old(cache))
    {
      ghost var start := ParseState(cache, None);
      settingExistsInSettingsFile := false;
      var i := 0;
      while i < |file|
        invariant 0 <= i <= |file|
        invariant loaded == old(loaded) && file == old(file) && fileExists == old(fileExists)
        invariant Parse(file, start) == Parse(file[i..], ParseState(cache, None))
        invariant old(cache).Keys <= cache.Keys
        invariant settingExistsInSettingsFile <==> name in cache && name !in old(cache)
        decreases |file| - i
      {
        var line := file[i];
        assert file[i..][0] == line && file[i..][1..] == file[i + 1..];
        match ClassifyLine(line) {
        case Skip =>
        case Broken(e) =>
          ErrorSticks(file[i + 1..], ParseState(cache, Some(e)));
          return Some(e), settingExistsInSettingsFile;
        case KeyLine(n, t) =>
          if n in cache {
            ErrorSticks(file[i + 1..], ParseState(cache, Some(DuplicateKey(n))));
            return Some(DuplicateKey(n)), settingExistsInSettingsFile;
          }
          cache := cache[n := StrV(t)];
          if n == name {
            settingExistsInSettingsFile := true;
          }
        }
        i := i + 1;
      }
      return None, settingExistsInSettingsFile;
    }

    /** The `Settings(section, name, default)` constructor: with a valid
        file, the setting is read once to see whether it is null (it never
        is) and read again for the value that is assigned (the first
        assignment, which only stores it). */
    method NewSetting(section: string, name: string, default: Value) returns (r: Result<RsSetting, IniError>)
      modifies this
      ensures loaded == old(loaded) && file == old(file) && fileExists == old(fileExists)
      ensures var (c, read) := ReadSpec(old(cache), fileExists, Parse(file, StartState), name, default);
              if !old(HasValidSettingsFile()) then
                && cache == old(cache)
                && r.Success? && fresh(r.value) && r.value.Snapshot() == View(section, name, default, None)
                && r.value.alreadyInit
              else
                && cache == c
                && (read.Failure? ==> r == Failure(read.error))
                && (read.Success? ==> r.Success? && fresh(r.value)
                                      && r.value.Snapshot() == View(section, name, default, Some(Coerce(read.value)))
                                      && !r.value.alreadyInit)
    {
      var s := new RsSetting(section, name, default);
      if HasValidSettingsFile() {
        ghost var c0 := cache;
        var first := ReadPreviousSetting(name, default);
        if first.Failure? {
          return Failure(first.error);
        }
        ReadSpecTwice(c0, fileExists, Parse(file, StartState), name, default);
        var second := ReadPreviousSetting(name, default);
        // `s.alreadyInit` holds, so the setter takes its first branch.
        s.Store(second.value);
      }
      r := Success(s);
    }

    /** `LoadedSettings.Add(new Settings(section, name, default))`. */
    method Register(section: string, name: string, default: Value) returns (r: Result<(), IniError>)
      modifies this
      ensures file == old(file) && fileExists == old(fileExists)
      ensures r.Success? <==> RegisterStep(old(cache), HasValidSettingsFile(), Parse(file, StartState), name, default).Success?
      ensures r.Failure? ==> r.error == RegisterStep(old(cache), HasValidSettingsFile(), Parse(file, StartState), name, default).error
      ensures r.Success? ==>
        && |loaded| == |old(loaded)| + 1 && loaded[..|old(loaded)|] == old(loaded)
        && loaded[|old(loaded)|].section == section && loaded[|old(loaded)|].name == name
        && loaded[|old(loaded)|].defaultValue == default
        && cache == RegisterStep(old(cache), HasValidSettingsFile(), Parse(file, StartState), name, default).value.0
        && loaded[|old(loaded)|].value == CoercedValue(RegisterStep(old(cache), HasValidSettingsFile(), Parse(file, StartState), name, default).value.1)
    {
      var setting := NewSetting(section, name, default);
      if setting.Failure? {
        return Failure(setting.error);
      }
      loaded := loaded + [setting.value];
      r := Success(());
    }

    /** The `LoadSettings()` constructor: clear the registered settings,
        create and register the 25 settings in table order (a constructor
        that throws ends the load), then rewrite the file. */
    method Load() returns (r: Result<(), IniError>)
      modifies this
      ensures r.Success? <==> Registration(old(cache), Registered, old(HasValidSettingsFile()), Parse(old(file), StartState)).Success?
      ensures r.Failure? ==> r.error == Registration(old(cache), Registered, old(HasValidSettingsFile()), Parse(old(file), StartState)).error
      ensures r.Success? ==>
        && |Registration(old(cache), Registered, old(HasValidSettingsFile()), Parse(old(file), StartState)).value.1| == |Registered|
        && ViewsOf(loaded) == RegisteredViews(Registered, CoercedAll(Registration(old(cache), Registered, old(HasValidSettingsFile()), Parse(old(file), StartState)).value.1))
        && fileExists && file == Render(ViewsOf(loaded), false)
      ensures r.Success? && !old(HasValidSettingsFile()) ==>
        cache == old(cache) && forall k :: 0 <= k < |loaded| ==> ViewsOf(loaded)[k].value == None
      ensures r.Success? && old(HasValidSettingsFile()) ==> AllCached(cache, ViewsOf(loaded))
      ensures r.Success? && old(HasValidSettingsFile()) && old(|cache|) == 0 ==>
        Extends(cache, Parse(old(file), StartState).cache)
    {
      r := LoadTable(Registered);
    }

    /** `Load` for any table of settings. With a valid file every setting
        ends up holding the coerced cached object for its name, and a first
        load keeps every entry of the file in the cache; without one every
        setting is at its default. */
    method LoadTable(table: seq<(string, string, Value)>) returns (r: Result<(), IniError>)
      modifies this
      ensures r.Success? <==> Registration(old(cache), table, old(HasValidSettingsFile()), Parse(old(file), StartState)).Success?
      ensures r.Failure? ==> r.error == Registration(old(cache), table, old(HasValidSettingsFile()), Parse(old(file), StartState)).error
      ensures r.Success? ==>
        && |Registration(old(cache), table, old(HasValidSettingsFile()), Parse(old(file), StartState)).value.1| == |table|
        && ViewsOf(loaded) == RegisteredViews(table, CoercedAll(Registration(old(cache), table, old(HasValidSettingsFile()), Parse(old(file), StartState)).value.1))
        && fileExists && file == Render(ViewsOf(loaded), false)
      ensures r.Success? && !old(HasValidSettingsFile()) ==>
        cache == old(cache) && forall k :: 0 <= k < |loaded| ==> ViewsOf(loaded)[k].value == None
      ensures r.Success? && old(HasValidSettingsFile()) ==> AllCached(cache, ViewsOf(loaded))
      ensures r.Success? && old(HasValidSettingsFile()) && old(|cache|) == 0 ==>
        |table| > 0 ==> Extends(cache, Parse(old(file), StartState).cache)
    {
      ghost var c0 := cache;
      r := RegisterAll(table);
      if r.Success? {
        RegistrationOutcome(c0, table, HasValidSettingsFile(), Parse(file, StartState));
        r := WriteSettingsFile(None);
      }
    }

    /** The registrations of `Load`, for any table of settings: the cache
        and the settings are those of `Registration`. */
    method RegisterAll(table: seq<(string, string, Value)>) returns (r: Result<(), IniError>)
      modifies this
      ensures file == old(file) && fileExists == old(fileExists)
      ensures r.Success? <==> Registration(old(cache), table, HasValidSettingsFile(), Parse(file, StartState)).Success?
      ensures r.Failure? ==> r.error == Registration(old(cache), table, HasValidSettingsFile(), Parse(file, StartState)).error
      ensures r.Success? ==>
        && cache == Registration(old(cache), table, HasValidSettingsFile(), Parse(file, StartState)).value.0
        && |Registration(old(cache), table, HasValidSettingsFile(), Parse(file, StartState)).value.1| == |table|
        && ViewsOf(loaded) == RegisteredViews(table, CoercedAll(Registration(old(cache), table, HasValidSettingsFile(), Parse(file, StartState)).value.1))
    {
      ghost var c0 := cache;
      ghost var valid := HasValidSettingsFile();
      ghost var parsed := Parse(file, StartState);
      ghost var vals: seq<Option<Value>> := [];
      loaded := [];
      var k := 0;
      while k < |table|
        invariant file == old(file) && fileExists == old(fileExists)
        invariant Accounted(table, k, c0, valid, parsed, vals)
      {
        var ok;
        ok, vals := RegisterNext(table, k, c0, valid, parsed, vals);
        if ok.Failure? {
          return ok;
        }
        k := k + 1;
      }
      AccountedAll(table, c0, valid, parsed, vals);
      r := Success(());
    }

    /** Once the whole table is accounted for, the registered settings are
        those of `Registration`. */
    lemma {:induction false} AccountedAll(table: seq<(string, string, Value)>, c0: FlatCache, valid: bool, parsed: ParseState,
                       vals: seq<Option<Value>>)
      requires Accounted(table, |table|, c0, valid, parsed, vals)
      ensures Registration(c0, table, valid, parsed) == Success((cache, vals))
      ensures ViewsOf(loaded) == RegisteredViews(table, CoercedAll(vals))
    {
      assert table[..|table|] == table;
      forall j | 0 <= j < |table| ensures CoercedAll(vals)[j] == CoercedValue(vals[j]) {
        CoercedAllAt(vals, j);
      }
    }

    /** `RegisterAll`'s account after registering `table[..k]` from cache
        `c0`: the settings registered so far hold the objects `vals`
        coerced, and the cache and `vals` are those of `Registration`. */
    ghost predicate Accounted(table: seq<(string, string, Value)>, k: int, c0: FlatCache, valid: bool, parsed: ParseState,
                              vals: seq<Option<Value>>)
      reads this, loaded
    {
      && 0 <= k <= |table| && |loaded| == k && |vals| == k
      && valid == HasValidSettingsFile() && parsed == Parse(file, StartState)
      && (forall j :: 0 <= j < k ==>
            loaded[j].section == table[j].0 && loaded[j].name == table[j].1 && loaded[j].defaultValue == table[j].2)
      && (forall j :: 0 <= j < k ==> loaded[j].value == CoercedValue(vals[j]))
      && Registration(c0, table[..k], valid, parsed) == Success((cache, vals))
    }

    /** One turn of `RegisterAll`'s loop: register `table[k]`. */
    method RegisterNext(table: seq<(string, string, Value)>, k: int, ghost c0: FlatCache, ghost valid: bool, ghost parsed: ParseState,
                        ghost vals: seq<Option<Value>>)
      returns (r: Result<(), IniError>, ghost vals': seq<Option<Value>>)
      requires k < |table| && Accounted(table, k, c0, valid, parsed, vals)
      modifies this
      ensures file == old(file) && fileExists == old(fileExists)
      ensures r.Failure? ==> Registration(c0, table, valid, parsed) == Failure(r.error)
      ensures r.Success? ==> Accounted(table, k + 1, c0, valid, parsed, vals')
    {
      ghost var cache0 := cache;
      ghost var step := RegisterStep(cache0, valid, parsed, table[k].1, table[k].2);
      vals' := vals;
      r := Register(table[k].0, table[k].1, table[k].2);
      if r.Failure? {
        RegistrationSnoc(c0, table, k, cache0, vals, valid, parsed);
        RegistrationFails(c0, table, k + 1, valid, parsed);
        return;
      }
      RegistrationSnocOk(c0, table, k, cache0, vals, valid, parsed, cache, step.value.1);
      vals' := vals + [step.value.1];
      forall j | 0 <= j < k + 1
        ensures loaded[j].section == table[j].0 && loaded[j].name == table[j].1 && loaded[j].defaultValue == table[j].2
        ensures loaded[j].value == CoercedValue(vals'[j])
      {
        if j < k {
          assert loaded[j] == old(loaded[j]);
        }
      }
    }
  }

  /** A read that succeeds leaves a cache from which the same read returns
      the same object and changes nothing: the constructor's two reads
      agree. */
  lemma {:induction false} ReadSpecTwice(c: FlatCache, fileExists: bool, parsed: ParseState, name: string, default: Value)
    requires ReadSpec(c, fileExists, parsed, name, default).1.Success?
    ensures var (c', r) := ReadSpec(c, fileExists, parsed, name, default);
            name in c' && ReadSpec(c', fileExists, parsed, name, default) == (c', r)
  {
    var c' := ReadSpec(c, fileExists, parsed, name, default).0;
    assert name in c';
    assert |c'| != 0 by {
      assert name in c'.Keys;
    }
  }

  /** Constructing one setting from cache `c`: with a valid file, the new
      cache and the object read; without one, nothing is read. */
  function RegisterStep(c: FlatCache, valid: bool, parsed: ParseState, name: string, default: Value)
    : Result<(FlatCache, Option<Value>), IniError>
  {
    if !valid then Success((c, None))
    else
      var (c', read) := ReadSpec(c, true, parsed, name, default);
      if read.Failure? then Failure(read.error) else Success((c', Some(read.value)))
  }

  /** Constructing the settings of `table` in order from cache `c`: the
      final cache and the object read for each setting, or the first
      error. */
  function Registration(c: FlatCache, table: seq<(string, string, Value)>, valid: bool, parsed: ParseState)
    : Result<(FlatCache, seq<Option<Value>>), IniError>
    decreases |table|
  {
    if table == [] then Success((c, []))
    else
      var last := table[|table| - 1];
      match Registration(c, table[..|table| - 1], valid, parsed)
      case Failure(e) => Failure(e)
      case Success(done) =>
        match RegisterStep(done.0, valid, parsed, last.1, last.2)
        case Failure(e) => Failure(e)
        case Success(step) => Success((step.0, done.1 + [step.1]))
  }

  /** What a registration that succeeds leaves behind: with a valid file,
      every registered setting holds the coerced object the final cache has
      for its name, and a registration from the empty cache keeps every
      entry of the file; without one, the cache is untouched and no setting
      has a value. */
  lemma {:induction false} RegistrationOutcome(c: FlatCache, table: seq<(string, string, Value)>, valid: bool, parsed: ParseState)
    requires Registration(c, table, valid, parsed).Success?
    ensures |Registration(c, table, valid, parsed).value.1| == |table|
    ensures valid ==>
      AllCached(Registration(c, table, valid, parsed).value.0,
                RegisteredViews(table, CoercedAll(Registration(c, table, valid, parsed).value.1)))
    ensures valid && |c| == 0 && |table| > 0 ==>
      Extends(Registration(c, table, valid, parsed).value.0, parsed.cache)
    ensures !(valid) ==>
      && Registration(c, table, valid, parsed).value.0 == c
      && forall k :: 0 <= k < |table| ==>
           RegisteredViews(table, CoercedAll(Registration(c, table, valid, parsed).value.1))[k].value == None
  {
    RegistrationLength(c, table, valid, parsed);
    var vals := Registration(c, table, valid, parsed).value.1;
    forall k | 0 <= k < |table| ensures CoercedAll(vals)[k] == CoercedValue(vals[k]) {
      CoercedAllAt(vals, k);
    }
    if valid {
      RegistrationHeld(c, table, valid, parsed);
      if |c| == 0 && |table| > 0 {
        RegistrationParsed(c, table, valid, parsed);
      }
    } else {
      RegistrationDefaults(c, table, valid, parsed);
    }
  }

  /** Every setting holds the coerced object the cache has for its name. */
  ghost predicate AllCached(c: FlatCache, vs: seq<View>) {
    forall k :: 0 <= k < |vs| ==>
      Lookup(c, vs[k].name).Some? && vs[k].value == CoercedValue(Lookup(c, vs[k].name))
  }

  /** The cache has the object `v` for this name. */
  ghost predicate Held(c: FlatCache, name: string, v: Option<Value>) {
    v.Some? && Lookup(c, name) == v
  }

  /** The last step of a registration that succeeds. */
  lemma {:induction false} RegistrationUnfold(c: FlatCache, table: seq<(string, string, Value)>, valid: bool, parsed: ParseState)
    requires table != [] && Registration(c, table, valid, parsed).Success?
    ensures Registration(c, table[..|table| - 1], valid, parsed).Success?
    ensures RegisterStep(Registration(c, table[..|table| - 1], valid, parsed).value.0, valid, parsed,
                         table[|table| - 1].1, table[|table| - 1].2).Success?
    ensures Registration(c, table, valid, parsed).value ==
      var done := Registration(c, table[..|table| - 1], valid, parsed).value;
      var step := RegisterStep(done.0, valid, parsed, table[|table| - 1].1, table[|table| - 1].2).value;
      (step.0, done.1 + [step.1])
  {
  }

  /** With a valid file, one step keeps every cached entry and collects the
      object the new cache has for the setting's name. */
  lemma {:induction false} RegisterStepHeld(c: FlatCache, valid: bool, parsed: ParseState, key: (string, string, Value))
    requires valid && RegisterStep(c, valid, parsed, key.1, key.2).Success?
    ensures Extends(RegisterStep(c, valid, parsed, key.1, key.2).value.0, c)
    ensures Held(RegisterStep(c, valid, parsed, key.1, key.2).value.0, key.1, RegisterStep(c, valid, parsed, key.1, key.2).value.1)
  {
    if |c| == 0 {
      assert c == map[];
    }
  }

  /** The step from the empty cache keeps every entry of the file. */
  lemma {:induction false} RegisterStepParsed(c: FlatCache, valid: bool, parsed: ParseState, key: (string, string, Value))
    requires valid && |c| == 0 && RegisterStep(c, valid, parsed, key.1, key.2).Success?
    ensures Extends(RegisterStep(c, valid, parsed, key.1, key.2).value.0, parsed.cache)
  {
  }

  /** Registration collects one object per setting. */
  lemma {:induction false} RegistrationLength(c: FlatCache, table: seq<(string, string, Value)>, valid: bool, parsed: ParseState)
    requires Registration(c, table, valid, parsed).Success?
    ensures |Registration(c, table, valid, parsed).value.1| == |table|
    decreases |table|
  {
    if table != [] {
      RegistrationUnfold(c, table, valid, parsed);
      RegistrationLength(c, table[..|table| - 1], valid, parsed);
    }
  }

  /** One more setting: registering `table[..k + 1]` is registering
      `table[..k]` and then constructing `table[k]`. */
  lemma {:induction false} RegistrationSnoc(c: FlatCache, table: seq<(string, string, Value)>, k: nat, done: FlatCache, vals: seq<Option<Value>>,
                         valid: bool, parsed: ParseState)
    requires k < |table| && Registration(c, table[..k], valid, parsed) == Success((done, vals))
    ensures Registration(c, table[..k + 1], valid, parsed) ==
      match RegisterStep(done, valid, parsed, table[k].1, table[k].2)
      case Failure(e) => Failure(e)
      case Success(step) => Success((step.0, vals + [step.1]))
  {
    assert table[..k + 1][..k] == table[..k];
  }

  /** One more setting whose construction succeeds. */
  lemma {:induction false} RegistrationSnocOk(c: FlatCache, table: seq<(string, string, Value)>, k: nat, done: FlatCache, vals: seq<Option<Value>>,
                           valid: bool, parsed: ParseState, c': FlatCache, v: Option<Value>)
    requires k < |table| && Registration(c, table[..k], valid, parsed) == Success((done, vals))
    requires RegisterStep(done, valid, parsed, table[k].1, table[k].2) == Success((c', v))
    ensures Registration(c, table[..k + 1], valid, parsed) == Success((c', vals + [v]))
  {
    RegistrationSnoc(c, table, k, done, vals, valid, parsed);
  }

  /** A registration that fails on some prefix of the table fails on the
      whole table, with the same error: the first constructor that throws
      ends the load. */
  lemma {:induction false} RegistrationFails(c: FlatCache, table: seq<(string, string, Value)>, k: nat, valid: bool, parsed: ParseState)
    requires k <= |table| && Registration(c, table[..k], valid, parsed).Failure?
    ensures Registration(c, table, valid, parsed) == Registration(c, table[..k], valid, parsed)
    decreases |table|
  {
    if k < |table| {
      var init := table[..|table| - 1];
      assert init[..k] == table[..k];
      RegistrationFails(c, init, k, valid, parsed);
    } else {
      assert table[..k] == table;
    }
  }

  /** With a valid file, registration never drops or changes a cached
      entry, and collects for every setting the object that the final cache
      has for its name. */
  lemma {:induction false} RegistrationHeld(c: FlatCache, table: seq<(string, string, Value)>, valid: bool, parsed: ParseState)
    requires valid
    requires Registration(c, table, valid, parsed).Success?
    ensures Extends(Registration(c, table, valid, parsed).value.0, c)
    ensures |Registration(c, table, valid, parsed).value.1| == |table|
    ensures forall j :: 0 <= j < |table| ==>
      Held(Registration(c, table, valid, parsed).value.0, table[j].1, Registration(c, table, valid, parsed).value.1[j])
    decreases |table|
  {
    RegistrationLength(c, table, valid, parsed);
    if table != [] {
      var n := |table| - 1;
      var init := table[..n];
      RegistrationUnfold(c, table, valid, parsed);
      RegistrationHeld(c, init, valid, parsed);
      var done := Registration(c, init, valid, parsed).value;
      RegisterStepHeld(done.0, valid, parsed, table[n]);
      var fin := Registration(c, table, valid, parsed).value;
      forall j | 0 <= j < |table| ensures Held(fin.0, table[j].1, fin.1[j]) {
        if j < n {
          assert table[j] == init[j] && fin.1[j] == done.1[j];
        }
      }
    }
  }

  /** Without a valid file, registration reads nothing and collects no
      object for any setting. */
  lemma {:induction false} RegistrationDefaults(c: FlatCache, table: seq<(string, string, Value)>, valid: bool, parsed: ParseState)
    requires !(valid)
    ensures Registration(c, table, valid, parsed).Success? && Registration(c, table, valid, parsed).value.0 == c
    ensures |Registration(c, table, valid, parsed).value.1| == |table|
    ensures forall j :: 0 <= j < |table| ==> Registration(c, table, valid, parsed).value.1[j] == None
    decreases |table|
  {
    if table != [] {
      RegistrationDefaults(c, table[..|table| - 1], valid, parsed);
    }
  }

  /** A registration that starts from the empty cache keeps every entry of
      the file: the first read fills the cache from it. */
  lemma {:induction false} RegistrationParsed(c: FlatCache, table: seq<(string, string, Value)>, valid: bool, parsed: ParseState)
    requires valid && |c| == 0 && |table| > 0
    requires Registration(c, table, valid, parsed).Success?
    ensures Extends(Registration(c, table, valid, parsed).value.0, parsed.cache)
    decreases |table|
  {
    var n := |table| - 1;
    var init := table[..n];
    RegistrationUnfold(c, table, valid, parsed);
    var done := Registration(c, init, valid, parsed).value;
    if n == 0 {
      assert done.0 == c;
      RegisterStepParsed(c, valid, parsed, table[n]);
    } else {
      RegistrationParsed(c, init, valid, parsed);
      RegisterStepHeld(done.0, valid, parsed, table[n]);
    }
  }

  /** The cache `c` holds every entry of `d`, unchanged. */
  ghost predicate Extends(c: FlatCache, d: FlatCache) {
    forall n :: n in d ==> n in c && c[n] == d[n]
  }
}
