/** RS_ASIO.ini: the `Settings` objects of RS_ASIO and the static state of
    its `LoadSettings` class (the registered settings, the nested
    section -> name -> value cache of the file, and the file itself). */
module AsioSettings {
  import opened Wrappers
  import opened Text
  import opened IniCommon

  /** `SettingsFile_Cache`: section -> setting name -> cached object. */
  type Cache = map<string, map<string, Value>>

  /** What one line of RS_ASIO.ini is to the reader. */
  datatype LineKind =
    | Skip
    | SectionLine(section: string)
    | KeyLine(name: string, text: string)
    | Broken(error: IniError)

  /** Blank lines and `;` comments are skipped; a `[` line names a section
      (its first and last characters removed); any other line is split at
      its first `=`. */
  function ClassifyLine(line: string): LineKind {
    if |line| == 0 || line[0] == ';' then Skip
    else if line[0] == '[' then
      if |line| >= 2 then SectionLine(line[1..|line| - 1]) else Broken(BadSectionHeader(line))
    else
      var eq := IndexOf(line, '=');
      if eq < 0 then Broken(MissingSeparator(line)) else KeyLine(line[..eq], line[eq + 1..])
  }

  /** Stores one entry: overwrites the name in an existing section, adds it
      to an existing section, or creates the section. */
  function Put(c: Cache, section: string, name: string, v: Value): Cache {
    if section in c then c[section := c[section][name := v]] else c[section := map[name := v]]
  }

  /** The cached object for a section and name, if any. */
  function Lookup(c: Cache, section: string, name: string): Option<Value> {
    if section in c && name in c[section] then Some(c[section][name]) else None
  }

  /** The reading loop's state: the current section, the cache, and the
      exception that ended the loop, if one did. */
  datatype ParseState = ParseState(section: string, cache: Cache, error: Option<IniError>)

  const StartState: ParseState := ParseState("", map[], None)

  function Step(st: ParseState, line: string): ParseState {
    if st.error.Some? then st
    else
      match ClassifyLine(line)
      case Skip => st
      case SectionLine(s) => st.(section := s)
      case KeyLine(n, t) => st.(cache := Put(st.cache, st.section, n, StrV(t)))
      case Broken(e) => st.(error := Some(e))
  }

  /** The reading loop over the lines of RS_ASIO.ini. */
  function Parse(lines: seq<string>, st: ParseState): ParseState {
    if lines == [] then st else Parse(lines[1..], Step(st, lines[0]))
  }

  /** Some section caches the name. */
  predicate NameAnywhere(c: Cache, name: string) {
    exists s :: s in c && name in c[s]
  }

  /** After reading the file: the default is stored unless the name was seen
      in some section (of any name). */
  function InsertDefault(c: Cache, section: string, name: string, default: Value): Cache {
    if NameAnywhere(c, name) then c else Put(c, section, name, default)
  }

  /** The cached branch of `ReadPreviousSetting`. A missing section gets a
      new dictionary under the key `name` (not `section`), so the read that
      follows fails unless the two are equal; a missing name gets the
      default. The cached object itself is the result (`CoercedRead` turns
      it into what the method returns). */
  function CachedRead(c: Cache, section: string, name: string, default: Value): (Cache, Result<Value, IniError>) {
    if section !in c then
      if name in c then (c, Failure(DuplicateKey(name)))
      else
        var c' := c[name := map[name := default]];
        if section in c' then (c', Success(c'[section][name]))
        else (c', Failure(KeyNotFound(section)))
    else
      var c' := if name in c[section] then c else c[section := c[section][name := default]];
      (c', Success(c'[section][name]))
  }

  /** `ReadPreviousSetting`: with an empty cache, read the file into it
      (`parsed`, the outcome of reading the file from the empty cache),
      store the default if needed and read again from the cache. */
  function ReadSpec(c: Cache, fileExists: bool, parsed: ParseState, section: string, name: string, default: Value)
    : (Cache, Result<Value, IniError>)
  {
    if |c| != 0 then CachedRead(c, section, name, default)
    else if !fileExists then (c, Failure(SettingsFileMissing))
    else if parsed.error.Some? then (parsed.cache, Failure(parsed.error.value))
    else CachedRead(InsertDefault(parsed.cache, section, name, default), section, name, default)
  }

  /** Once the loop has thrown, the remaining lines change nothing. */
  lemma {:induction false} ErrorSticks(lines: seq<string>, st: ParseState)
    requires st.error.Some?
    ensures Parse(lines, st) == st
    decreases |lines|
  {
    if lines != [] {
      ErrorSticks(lines[1..], st);
    }
  }

  /** Storing an entry adds its name to the names seen and keeps the rest. */
  lemma {:induction false} PutNameAnywhere(c: Cache, section: string, n: string, v: Value, name: string)
    ensures NameAnywhere(Put(c, section, n, v), name) <==> NameAnywhere(c, name) || n == name
  {
    var c' := Put(c, section, n, v);
    if NameAnywhere(c, name) {
      var s :| s in c && name in c[s];
      assert s in c' && name in c'[s];
    }
    if n == name {
      assert section in c' && name in c'[section];
    }
  }

  /** The position of the first registered setting with this section and
      name (what `Where(...).First()` picks), or -1 when there is none. */
  function FirstMatch(xs: seq<AsioSetting>, section: string, name: string): (r: int)
    ensures -1 <= r < |xs|
    ensures 0 <= r ==> xs[r].section == section && xs[r].name == name
  {
    if xs == [] then -1
    else
      var k := FirstMatch(xs[..|xs| - 1], section, name);
      if 0 <= k then k
      else if xs[|xs| - 1].section == section && xs[|xs| - 1].name == name then |xs| - 1
      else -1
  }

  /** No setting before the one `FirstMatch` finds has this section and
      name, and it finds none exactly when no setting has them. */
  lemma {:induction false} FirstMatchSpec(xs: seq<AsioSetting>, section: string, name: string)
    ensures var r := FirstMatch(xs, section, name);
      0 <= r ==> forall k :: 0 <= k < r ==> !(xs[k].section == section && xs[k].name == name)
    ensures FirstMatch(xs, section, name) == -1 <==>
      forall k :: 0 <= k < |xs| ==> !(xs[k].section == section && xs[k].name == name)
  {
    if xs != [] {
      FirstMatchSpec(xs[..|xs| - 1], section, name);
    }
  }

  /** The registered settings in `xs` with this section and name, in list
      order (the filter of `Settings.Where`). */
  function WhereIn(xs: seq<AsioSetting>, section: string, name: string): seq<AsioSetting> {
    if xs == [] then []
    else
      var last := xs[|xs| - 1];
      WhereIn(xs[..|xs| - 1], section, name) + (if last.section == section && last.name == name then [last] else [])
  }

  /** `WhereIn` keeps exactly the settings with this section and name. */
  lemma {:induction false} WhereInMembers(xs: seq<AsioSetting>, section: string, name: string)
    ensures var r := WhereIn(xs, section, name);
      && (forall k :: 0 <= k < |r| ==> r[k] in xs && r[k].section == section && r[k].name == name)
      && (forall k :: 0 <= k < |xs| && xs[k].section == section && xs[k].name == name ==> xs[k] in r)
  {
    if xs != [] {
      var init, last := xs[..|xs| - 1], xs[|xs| - 1];
      WhereInMembers(init, section, name);
      var r, ri := WhereIn(xs, section, name), WhereIn(init, section, name);
      assert r == ri + (if last.section == section && last.name == name then [last] else []);
      forall k | 0 <= k < |r| ensures r[k] in xs {
        if k < |ri| {
          assert r[k] == ri[k];
          var j :| 0 <= j < |init| && init[j] == ri[k];
          assert xs[j] == init[j];
        }
      }
      forall k | 0 <= k < |xs| - 1 && xs[k].section == section && xs[k].name == name ensures xs[k] in r {
        assert xs[k] == init[k];
        assert xs[k] in ri;
      }
    }
  }

  /** The first element of `WhereIn` is the setting `FirstMatch` finds, and
      `WhereIn` is empty exactly when `FirstMatch` finds none. */
  lemma {:induction false} WhereInFirst(xs: seq<AsioSetting>, section: string, name: string)
    ensures var r := WhereIn(xs, section, name);
      && (|r| > 0 ==> 0 <= FirstMatch(xs, section, name) && r[0] == xs[FirstMatch(xs, section, name)])
      && (|r| == 0 ==> FirstMatch(xs, section, name) == -1)
  {
    if xs != [] {
      var init := xs[..|xs| - 1];
      WhereInFirst(init, section, name);
      var ri := WhereIn(init, section, name);
      if |ri| > 0 {
        assert WhereIn(xs, section, name)[0] == ri[0];
      }
    }
  }

  function ViewsOf(xs: seq<AsioSetting>): (r: seq<View>)
    reads xs
    ensures |r| == |xs| && forall k :: 0 <= k < |xs| ==> r[k] == xs[k].Snapshot()
  {
    if xs == [] then [] else ViewsOf(xs[..|xs| - 1]) + [xs[|xs| - 1].Snapshot()]
  }

  /** One RS_ASIO setting (`Settings/Asio/Settings.cs`). */
  class AsioSetting {
    const section: string
    const name: string
    const defaultValue: Value
    var value: Option<Value>
    var alreadyInit: bool

    /** The field initialisations of the constructor. */
    constructor (section: string, name: string, defaultValue: Value)
      ensures this.section == section && this.name == name && this.defaultValue == defaultValue
      ensures value == None && alreadyInit
    {
      this.section := section;
      this.name := name;
      this.defaultValue := defaultValue;
      value := None;
      alreadyInit := true;
    }

    function Snapshot(): View
      reads this
    {
      View(section, name, defaultValue, value)
    }

    /** The `Value` setter. The first assignment after construction only
        stores the value and clears `alreadyInit`; later ones also update the
        registered copy and rewrite the file (`Propagate`). */
    method SetValue(store: AsioStore, v: Value) returns (r: Result<(), IniError>)
      modifies this, store, store.loaded
      ensures value == Some(v) && !alreadyInit
      ensures store.loaded == old(store.loaded) && store.cache == old(store.cache)
      ensures old(alreadyInit) ==>
        && r.Success?
        && store.file == old(store.file) && store.fileExists == old(store.fileExists)
        && forall o :: o in store.loaded && o != this ==> o.value == old(o.value) && o.alreadyInit == old(o.alreadyInit)
      ensures !old(alreadyInit) ==>
        var valid := old(store.HasValidSettingsFile());
        var i := FirstMatch(store.loaded, section, name);
        var touched := valid && 0 <= i && store.loaded[i] != this && old(store.loaded[i].value) != Some(v);
        && (valid && i < 0 ==> r == Failure(NoSuchSetting(name)) && store.file == old(store.file) && store.fileExists == old(store.fileExists))
        && (!(valid && i < 0) ==> r.Success? && store.fileExists && store.file == Render(ViewsOf(store.loaded), true))
        && (forall o :: o in store.loaded && o != this ==>
              && o.value == (if touched && o == store.loaded[i] then Some(v) else old(o.value))
              && o.alreadyInit == (if touched && o == store.loaded[i] then false else old(o.alreadyInit)))
      decreases Rank(store.loaded), 2
    {
      if !alreadyInit {
        value := Some(v);
        r := Propagate(store, v);
      } else {
        Store(v);
        r := Success(());
      }
    }

    /** The setter while `alreadyInit` holds (the assignment made by the
        constructor): store the value and end the initialisation. */
    method Store(v: Value)
      modifies this
      ensures value == Some(v) && !alreadyInit
    {
      value := Some(v);
      alreadyInit := false;
    }

    /** 0 for the first registered setting of its section and name, 1 for
        any other: the setter recurses at most once. */
    function Rank(xs: seq<AsioSetting>): nat {
      var i := FirstMatch(xs, section, name);
      if 0 <= i && xs[i] == this then 0 else 1
    }

    /** The part of the setter that runs once the object is initialised:
        the registered copy is brought up to date (`SyncFirst`), then the
        file is rewritten. */
    method Propagate(store: AsioStore, v: Value) returns (r: Result<(), IniError>)
      requires value == Some(v) && !alreadyInit
      modifies store, store.loaded
      ensures value == Some(v) && !alreadyInit
      ensures store.loaded == old(store.loaded) && store.cache == old(store.cache)
      ensures var valid := old(store.HasValidSettingsFile());
        var i := FirstMatch(store.loaded, section, name);
        var touched := valid && 0 <= i && old(store.loaded[i].value) != Some(v);
        && (valid && i < 0 ==> r == Failure(NoSuchSetting(name)) && store.file == old(store.file) && store.fileExists == old(store.fileExists))
        && (!(valid && i < 0) ==> r.Success? && store.fileExists && store.file == Render(ViewsOf(store.loaded), true))
        && (forall o :: o in store.loaded ==>
              && o.value == (if touched && o == store.loaded[i] then Some(v) else old(o.value))
              && o.alreadyInit == (if touched && o == store.loaded[i] then false else old(o.alreadyInit)))
      decreases Rank(store.loaded), 1
    {
      r := SyncFirst(store, v);
      if r.Success? {
        r := store.WriteSettingsFile(None);
      }
    }

    /** With a valid file, the first registered setting of the same section
        and name gets the value through its own setter unless it already
        holds it; when there is none, `First` throws. */
    method SyncFirst(store: AsioStore, v: Value) returns (r: Result<(), IniError>)
      requires value == Some(v) && !alreadyInit
      modifies store, store.loaded
      ensures value == Some(v) && !alreadyInit
      ensures store.loaded == old(store.loaded) && store.cache == old(store.cache)
      ensures var valid := old(store.HasValidSettingsFile());
        var i := FirstMatch(store.loaded, section, name);
        var touched := valid && 0 <= i && old(store.loaded[i].value) != Some(v);
        && (r.Failure? <==> valid && i < 0)
        && (r.Failure? ==> r.error == NoSuchSetting(name) && store.file == old(store.file) && store.fileExists == old(store.fileExists))
        && (forall o :: o in store.loaded ==>
              && o.value == (if touched && o == store.loaded[i] then Some(v) else old(o.value))
              && o.alreadyInit == (if touched && o == store.loaded[i] then false else old(o.alreadyInit)))
      decreases Rank(store.loaded), 0
    {
      r := Success(());
      if store.HasValidSettingsFile() {
        var i := FirstMatch(store.loaded, section, name);
        if i < 0 {
          return Failure(NoSuchSetting(name));
        }
        var first := store.loaded[i];
        if first.value != Some(v) {
          assert first != this;
          var _ := first.SetValue(store, v);
        }
      }
    }
  }

  /** The registered settings, in the order `LoadSettings()` adds them. */
  const Registered: seq<(string, string, Value)> := [
    ("Config", "EnableWasapiOutputs", IntV(0)),
    ("Config", "EnableWasapiInputs", IntV(0)),
    ("Config", "EnableAsio", IntV(1)),
    ("Asio", "BufferSizeMode", StrV("driver")),
    ("Asio", "CustomBufferSize", StrV("")),
    ("Asio.Output", "Driver", StrV("")),
    ("Asio.Output", "BaseChannel", IntV(0)),
    ("Asio.Output", "AltBaseChannel", StrV("")),
    ("Asio.Output", "EnableSoftwareEndpointVolumeControl", IntV(1)),
    ("Asio.Output", "EnableSoftwareMasterVolumeControl", IntV(1)),
    ("Asio.Output", "SoftwareMasterVolumePercent", IntV(100)),
    ("Asio.Input.0", "Driver", StrV("")),
    ("Asio.Input.0", "Channel", IntV(0)),
    ("Asio.Input.0", "EnableSoftwareEndpointVolumeControl", IntV(1)),
    ("Asio.Input.0", "EnableSoftwareMasterVolumeControl", IntV(1)),
    ("Asio.Input.0", "SoftwareMasterVolumePercent", IntV(100)),
    ("Asio.Input.1", "Driver", StrV("")),
    ("Asio.Input.1", "Channel", IntV(1)),
    ("Asio.Input.1", "EnableSoftwareEndpointVolumeControl", IntV(1)),
    ("Asio.Input.1", "EnableSoftwareMasterVolumeControl", IntV(1)),
    ("Asio.Input.1", "SoftwareMasterVolumePercent", IntV(100)),
    ("Asio.Input.Mic", "Driver", StrV("")),
    ("Asio.Input.Mic", "Channel", IntV(1)),
    ("Asio.Input.Mic", "EnableSoftwareEndpointVolumeControl", IntV(1)),
    ("Asio.Input.Mic", "EnableSoftwareMasterVolumeControl", IntV(1)),
    ("Asio.Input.Mic", "SoftwareMasterVolumePercent", IntV(100))
  ]

  /** The static state of RS_ASIO's `LoadSettings`, with RS_ASIO.ini as its
      lines (`fileExists` false: no file on disk). */
  class AsioStore {
    var loaded: seq<AsioSetting>
    var cache: Cache
    var file: seq<string>
    var fileExists: bool

    constructor (fileExists: bool, file: seq<string>)
      ensures this.fileExists == fileExists && this.file == file
      ensures loaded == [] && cache == map[]
    {
      this.fileExists := fileExists;
      this.file := file;
      loaded := [];
      cache := map[];
    }

    /** `HasValidSettingsFile`: the file exists and is not empty. */
    predicate HasValidSettingsFile()
      reads this
    {
      fileExists && |file| > 0
    }

    function Views(): seq<View>
      reads this, loaded
    {
      ViewsOf(loaded)
    }

    /** `Settings.Where(section, name)`: the registered settings with this
        section and name, in list order. */
    function Where(section: string, name: string): (r: seq<AsioSetting>)
      reads this
      ensures forall k :: 0 <= k < |r| ==> r[k] in loaded && r[k].section == section && r[k].name == name
      ensures forall k :: 0 <= k < |loaded| && loaded[k].section == section && loaded[k].name == name ==> loaded[k] in r
    {
      WhereInMembers(loaded, section, name);
      WhereIn(loaded, section, name)
    }

    /** `WriteSettingsFile(changed)`: the file is recreated (so it is left
        empty when swapping in `changed`, the state of a setting, throws) and
        rewritten from the registered settings. */
    method WriteSettingsFile(changed: Option<View>) returns (r: Result<(), IniError>)
      modifies this
      ensures loaded == old(loaded) && cache == old(cache) && fileExists
      ensures ViewsOf(loaded) == old(ViewsOf(loaded))
      ensures (r, file) == WriteOutcome(WriteSpec(old(ViewsOf(loaded)), changed, true))
      ensures changed.None? ==> r.Success? && file == Render(old(ViewsOf(loaded)), true)
    {
      var vs := ViewsOf(loaded);
      var w := SerializeSettings(vs, changed, true);
      fileExists := true;
      r, file := WriteOutcome(w).0, WriteOutcome(w).1;
    }

    /** `ReadPreviousSetting(section, name, default)`. */
    method ReadPreviousSetting(section: string, name: string, default: Value) returns (r: Result<Value, IniError>)
      modifies this
      ensures loaded == old(loaded) && file == old(file) && fileExists == old(fileExists)
      ensures cache == ReadSpec(old(cache), fileExists, Parse(file, StartState), section, name, default).0
      ensures r == CoercedRead(ReadSpec(old(cache), fileExists, Parse(file, StartState), section, name, default).1)
      decreases if |cache| == 0 then 1 else 0
    {
      if |cache| == 0 {
        if !fileExists {
          return Failure(SettingsFileMissing);
        }
        var err, settingExistsInSettingsFile := ReadFile(name);
        if err.Some? {
          return Failure(err.value);
        }
        if !settingExistsInSettingsFile {
          if section in cache {
            cache := cache[section := cache[section][name := default]];
          } else {
            cache := cache[section := map[name := default]];
          }
        }
        assert section in cache || NameAnywhere(cache, name);
        assert |cache| != 0 by {
          var s :| s in cache;
        }
        r := ReadPreviousSetting(section, name, default);
      } else {
        r := ReadCached(section, name, default);
      }
    }

    /** The reading loop: every line of the file into the cache, noting
        whether a line (in any section) names `name`. */
    method ReadFile(name: string) returns (err: Option<IniError>, settingExistsInSettingsFile: bool)
      modifies this
      ensures loaded == old(loaded) && file == old(file) && fileExists == old(fileExists)
      ensures var p := Parse(file, ParseState("", old(cache), None)); cache == p.cache && err == p.error
      ensures settingExistsInSettingsFile <==> NameAnywhere(cache, name)
    {
      ghost var start := ParseState("", cache, None);
      settingExistsInSettingsFile := NameAnywhere(cache, name);
      var currentSection := "";
      var i := 0;
      while i < |file|
        invariant 0 <= i <= |file|
        invariant loaded == old(loaded) && file == old(file) && fileExists == old(fileExists)
        invariant Parse(file, start) == Parse(file[i..], ParseState(currentSection, cache, None))
        invariant settingExistsInSettingsFile <==> NameAnywhere(cache, name)
        decreases |file| - i
      {
        var line := file[i];
        assert file[i..][0] == line && file[i..][1..] == file[i + 1..];
        match ClassifyLine(line) {
        case Skip =>
        case SectionLine(s) =>
          currentSection := s;
        case Broken(e) =>
          ErrorSticks(file[i + 1..], ParseState(currentSection, cache, Some(e)));
          return Some(e), settingExistsInSettingsFile;
        case KeyLine(n, t) =>
          ghost var before := cache;
          if currentSection in cache {
            cache := cache[currentSection := cache[currentSection][n := StrV(t)]];
          } else {
            cache := cache[currentSection := map[n := StrV(t)]];
          }
          assert cache == Put(before, currentSection, n, StrV(t));
          PutNameAnywhere(before, currentSection, n, StrV(t), name);
          if n == name {
            settingExistsInSettingsFile := true;
          }
        }
        i := i + 1;
      }
      return None, settingExistsInSettingsFile;
    }

    /** The cached branch of `ReadPreviousSetting`. */
    method ReadCached(section: string, name: string, default: Value) returns (r: Result<Value, IniError>)
      modifies this
      ensures loaded == old(loaded) && file == old(file) && fileExists == old(fileExists)
      ensures cache == CachedRead(old(cache), section, name, default).0
      ensures r == CoercedRead(CachedRead(old(cache), section, name, default).1)
    {
      if section !in cache {
        if name in cache {
          return Failure(DuplicateKey(name));
        }
        cache := cache[name := map[name := default]];
      } else if name !in cache[section] {
        cache := cache[section := cache[section][name := default]];
      }
      if section !in cache {
        return Failure(KeyNotFound(section));
      }
      var output := cache[section][name];
      r := Success(Coerce(output));
    }

    /** The `Settings(section, name, default)` constructor: with a valid
        file, the value read from the cache is assigned (the first assignment,
        which only stores it). */
    method NewSetting(section: string, name: string, default: Value) returns (r: Result<AsioSetting, IniError>)
      modifies this
      ensures loaded == old(loaded) && file == old(file) && fileExists == old(fileExists)
      ensures var (c, read) := ReadSpec(old(cache), fileExists, Parse(file, StartState), section, name, default);
              if !old(HasValidSettingsFile()) then
                && cache == old(cache)
                && r.Success? && fresh(r.value) && r.value.Snapshot() == View(section, name, default, None)
                && r.value.alreadyInit
              else
                && cache == c
                && (read.Failure? ==> r == Failure(read.error))
                && (read.Success? ==> r.Success? && fresh(r.value)
                                      && r.value.Snapshot() == View(section, name, default, Some(Coerce(read.value)))
                                      && !r.value.alreadyInit)
    {
      var s := new AsioSetting(section, name, default);
      if HasValidSettingsFile() {
        var read := ReadPreviousSetting(section, name, default);
        if read.Failure? {
          return Failure(read.error);
        }
        // `s.alreadyInit` holds, so the setter takes its first branch.
        s.Store(read.value);
      }
      r := Success(s);
    }

    /** `LoadedSettings.Add(new Settings(section, name, default))`. */
    method Register(section: string, name: string, default: Value) returns (r: Result<(), IniError>)
      modifies this
      ensures file == old(file) && fileExists == old(fileExists)
      ensures r.Success? <==> RegisterStep(old(cache), HasValidSettingsFile(), Parse(file, StartState), section, name, default).Success?
      ensures r.Failure? ==> r.error == RegisterStep(old(cache), HasValidSettingsFile(), Parse(file, StartState), section, name, default).error
      ensures r.Success? ==>
        && |loaded| == |old(loaded)| + 1 && loaded[..|old(loaded)|] == old(loaded)
        && loaded[|old(loaded)|].section == section && loaded[|old(loaded)|].name == name
        && loaded[|old(loaded)|].defaultValue == default
        && cache == RegisterStep(old(cache), HasValidSettingsFile(), Parse(file, StartState), section, name, default).value.0
        && loaded[|old(loaded)|].value == CoercedValue(RegisterStep(old(cache), HasValidSettingsFile(), Parse(file, StartState), section, name, default).value.1)
    {
      var setting := NewSetting(section, name, default);
      if setting.Failure? {
        return Failure(setting.error);
      }
      loaded := loaded + [setting.value];
      r := Success(());
    }

    /** The `LoadSettings()` constructor: clear the registered settings,
        create and register the 26 settings in table order (a constructor
        that throws ends the load), then rewrite the file. */
    method Load() returns (r: Result<(), IniError>)
      modifies this
      ensures r.Success? <==> Registration(old(cache), Registered, old(HasValidSettingsFile()), Parse(old(file), StartState)).Success?
      ensures r.Failure? ==> r.error == Registration(old(cache), Registered, old(HasValidSettingsFile()), Parse(old(file), StartState)).error
      ensures r.Success? ==>
        && |Registration(old(cache), Registered, old(HasValidSettingsFile()), Parse(old(file), StartState)).value.1| == |Registered|
        && ViewsOf(loaded) == RegisteredViews(Registered, CoercedAll(Registration(old(cache), Registered, old(HasValidSettingsFile()), Parse(old(file), StartState)).value.1))
        && fileExists && file == Render(ViewsOf(loaded), true)
      ensures r.Success? && !old(HasValidSettingsFile()) ==>
        cache == old(cache) && forall k :: 0 <= k < |loaded| ==> ViewsOf(loaded)[k].value == None
      ensures r.Success? && old(HasValidSettingsFile()) ==> AllCached(cache, ViewsOf(loaded))
      ensures r.Success? && old(HasValidSettingsFile()) && old(|cache|) == 0 ==>
        Extends(cache, Parse(old(file), StartState).cache)
    {
      r := LoadTable(Registered);
    }

    /** `Load` for any table of settings. With a valid file every setting
        ends up holding the coerced cached object for its section and name,
        and a first load keeps every entry of the file in the cache; without
        one every setting is at its default. */
    method LoadTable(table: seq<(string, string, Value)>) returns (r: Result<(), IniError>)
      modifies this
      ensures r.Success? <==> Registration(old(cache), table, old(HasValidSettingsFile()), Parse(old(file), StartState)).Success?
      ensures r.Failure? ==> r.error == Registration(old(cache), table, old(HasValidSettingsFile()), Parse(old(file), StartState)).error
      ensures r.Success? ==>
        && |Registration(old(cache), table, old(HasValidSettingsFile()), Parse(old(file), StartState)).value.1| == |table|
        && ViewsOf(loaded) == RegisteredViews(table, CoercedAll(Registration(old(cache), table, old(HasValidSettingsFile()), Parse(old(file), StartState)).value.1))
        && fileExists && file == Render(ViewsOf(loaded), true)
      ensures r.Success? && !old(HasValidSettingsFile()) ==>
        cache == old(cache) && forall k :: 0 <= k < |loaded| ==> ViewsOf(loaded)[k].value == None
      ensures r.Success? && old(HasValidSettingsFile()) ==> AllCached(cache, ViewsOf(loaded))
      ensures r.Success? && old(HasValidSettingsFile()) && old(|cache|) == 0 ==>
        |table| > 0 ==> Extends(cache, Parse(old(file), StartState).cache)
    {
      ghost var c0 := cache;
      r := RegisterAll(table);
      if r.Success? {
        RegistrationOutcome(c0, table, HasValidSettingsFile(), Parse(file, StartState));
        r := WriteSettingsFile(None);
      }
    }

    /** The registrations of `Load`, for any table of settings: the cache
        and the settings are those of `Registration`. */
    method RegisterAll(table: seq<(string, string, Value)>) returns (r: Result<(), IniError>)
      modifies this
      ensures file == old(file) && fileExists == old(fileExists)
      ensures r.Success? <==> Registration(old(cache), table, HasValidSettingsFile(), Parse(file, StartState)).Success?
      ensures r.Failure? ==> r.error == Registration(old(cache), table, HasValidSettingsFile(), Parse(file, StartState)).error
      ensures r.Success? ==>
        && cache == Registration(old(cache), table, HasValidSettingsFile(), Parse(file, StartState)).value.0
        && |Registration(old(cache), table, HasValidSettingsFile(), Parse(file, StartState)).value.1| == |table|
        && ViewsOf(loaded) == RegisteredViews(table, CoercedAll(Registration(old(cache), table, HasValidSettingsFile(), Parse(file, StartState)).value.1))
    {
      ghost var c0 := cache;
      ghost var valid := HasValidSettingsFile();
      ghost var parsed := Parse(file, StartState);
      ghost var vals: seq<Option<Value>> := [];
      loaded := [];
      var k := 0;
      while k < |table|
        invariant file == old(file) && fileExists == old(fileExists)
        invariant Accounted(table, k, c0, valid, parsed, vals)
      {
        var ok;
        ok, vals := RegisterNext(table, k, c0, valid, parsed, vals);
        if ok.Failure? {
          return ok;
        }
        k := k + 1;
      }
      AccountedAll(table, c0, valid, parsed, vals);
      r := Success(());
    }

    /** Once the whole table is accounted for, the registered settings are
        those of `Registration`. */
    lemma {:induction false} AccountedAll(table: seq<(string, string, Value)>, c0: Cache, valid: bool, parsed: ParseState,
                       vals: seq<Option<Value>>)
      requires Accounted(table, |table|, c0, valid, parsed, vals)
      ensures Registration(c0, table, valid, parsed) == Success((cache, vals))
      ensures ViewsOf(loaded) == RegisteredViews(table, CoercedAll(vals))
    {
      assert table[..|table|] == table;
      forall j | 0 <= j < |table| ensures CoercedAll(vals)[j] == CoercedValue(vals[j]) {
        CoercedAllAt(vals, j);
      }
    }

    /** `RegisterAll`'s account after registering `table[..k]` from cache
        `c0`: the settings registered so far hold the objects `vals`
        coerced, and the cache and `vals` are those of `Registration`. */
    ghost predicate Accounted(table: seq<(string, string, Value)>, k: int, c0: Cache, valid: bool, parsed: ParseState,
                              vals: seq<Option<Value>>)
      reads this, loaded
    {
      && 0 <= k <= |table| && |loaded| == k && |vals| == k
      && valid == HasValidSettingsFile() && parsed == Parse(file, StartState)
      && (forall j :: 0 <= j < k ==>
            loaded[j].section == table[j].0 && loaded[j].name == table[j].1 && loaded[j].defaultValue == table[j].2)
      && (forall j :: 0 <= j < k ==> loaded[j].value == CoercedValue(vals[j]))
      && Registration(c0, table[..k], valid, parsed) == Success((cache, vals))
    }

    /** One turn of `RegisterAll`'s loop: register `table[k]`. */
    method RegisterNext(table: seq<(string, string, Value)>, k: int, ghost c0: Cache, ghost valid: bool, ghost parsed: ParseState,
                        ghost vals: seq<Option<Value>>)
      returns (r: Result<(), IniError>, ghost vals': seq<Option<Value>>)
      requires k < |table| && Accounted(table, k, c0, valid, parsed, vals)
      modifies this
      ensures file == old(file) && fileExists == old(fileExists)
      ensures r.Failure? ==> Registration(c0, table, valid, parsed) == Failure(r.error)
      ensures r.Success? ==> Accounted(table, k + 1, c0, valid, parsed, vals')
    {
      ghost var cache0 := cache;
      ghost var step := RegisterStep(cache0, valid, parsed, table[k].0, table[k].1, table[k].2);
      assert Registration(c0, table[..k], valid, parsed) == Success((cache0, vals));
      vals' := vals;
      r := Register(table[k].0, table[k].1, table[k].2);
      assert HasValidSettingsFile() == valid && Parse(file, StartState) == parsed;
      if r.Failure? {
        assert step == Failure(r.error);
        RegistrationSnoc(c0, table, k, cache0, vals, valid, parsed);
        RegistrationFails(c0, table, k + 1, valid, parsed);
        return;
      }
      assert step.Success? && step.value.0 == cache;
      RegistrationSnocOk(c0, table, k, cache0, vals, valid, parsed, cache, step.value.1);
      vals' := vals + [step.value.1];
      forall j | 0 <= j < k + 1
        ensures loaded[j].section == table[j].0 && loaded[j].name == table[j].1 && loaded[j].defaultValue == table[j].2
        ensures loaded[j].value == CoercedValue(vals'[j])
      {
        if j < k {
          assert loaded[j] == old(loaded[j]) && vals'[j] == vals[j];
        }
      }
    }
  }

  /** Constructing one setting: with a valid file, the read of its section
      and name (a thrown read is the error) and the object read; without
      one, no read and no object. */
  function RegisterStep(c: Cache, valid: bool, parsed: ParseState, section: string, name: string, default: Value)
    : Result<(Cache, Option<Value>), IniError>
  {
    if !valid then Success((c, None))
    else
      var (c', read) := ReadSpec(c, true, parsed, section, name, default);
      if read.Failure? then Failure(read.error) else Success((c', Some(read.value)))
  }

  /** Constructing the settings of `table` in order from cache `c`: the
      final cache and the object read for each setting, or the first
      error. */
  function Registration(c: Cache, table: seq<(string, string, Value)>, valid: bool, parsed: ParseState)
    : Result<(Cache, seq<Option<Value>>), IniError>
    decreases |table|
  {
    if table == [] then Success((c, []))
    else
      var last := table[|table| - 1];
      match Registration(c, table[..|table| - 1], valid, parsed)
      case Failure(e) => Failure(e)
      case Success(done) =>
        match RegisterStep(done.0, valid, parsed, last.0, last.1, last.2)
        case Failure(e) => Failure(e)
        case Success(step) => Success((step.0, done.1 + [step.1]))
  }

  /** What a registration that succeeds leaves behind: with a valid file,
      every registered setting holds the coerced object the final cache has
      for its section and name, and a registration from the empty cache
      keeps every entry of the file; without one, the cache is untouched and
      no setting has a value. */
  lemma {:induction false} RegistrationOutcome(c: Cache, table: seq<(string, string, Value)>, valid: bool, parsed: ParseState)
    requires Registration(c, table, valid, parsed).Success?
    ensures |Registration(c, table, valid, parsed).value.1| == |table|
    ensures valid ==>
      AllCached(Registration(c, table, valid, parsed).value.0,
                RegisteredViews(table, CoercedAll(Registration(c, table, valid, parsed).value.1)))
    ensures valid && |c| == 0 && |table| > 0 ==>
      Extends(Registration(c, table, valid, parsed).value.0, parsed.cache)
    ensures !(valid) ==>
      && Registration(c, table, valid, parsed).value.0 == c
      && forall k :: 0 <= k < |table| ==>
           RegisteredViews(table, CoercedAll(Registration(c, table, valid, parsed).value.1))[k].value == None
  {
    RegistrationLength(c, table, valid, parsed);
    var vals := Registration(c, table, valid, parsed).value.1;
    forall k | 0 <= k < |table| ensures CoercedAll(vals)[k] == CoercedValue(vals[k]) {
      CoercedAllAt(vals, k);
    }
    if valid {
      RegistrationHeld(c, table, valid, parsed);
      if |c| == 0 && |table| > 0 {
        RegistrationParsed(c, table, valid, parsed);
      }
    } else {
      RegistrationDefaults(c, table, valid, parsed);
    }
  }

  /** Every setting holds the coerced object the cache has for its section
      and name. */
  ghost predicate AllCached(c: Cache, vs: seq<View>) {
    forall k :: 0 <= k < |vs| ==>
      Lookup(c, vs[k].section, vs[k].name).Some? && vs[k].value == CoercedValue(Lookup(c, vs[k].section, vs[k].name))
  }

  /** The cache has the object `v` for this section and name. */
  ghost predicate Held(c: Cache, section: string, name: string, v: Option<Value>) {
    v.Some? && Lookup(c, section, name) == v
  }

  /** The last step of a registration that succeeds. */
  lemma {:induction false} RegistrationUnfold(c: Cache, table: seq<(string, string, Value)>, valid: bool, parsed: ParseState)
    requires table != [] && Registration(c, table, valid, parsed).Success?
    ensures Registration(c, table[..|table| - 1], valid, parsed).Success?
    ensures RegisterStep(Registration(c, table[..|table| - 1], valid, parsed).value.0, valid, parsed,
                         table[|table| - 1].0, table[|table| - 1].1, table[|table| - 1].2).Success?
    ensures Registration(c, table, valid, parsed).value ==
      var done := Registration(c, table[..|table| - 1], valid, parsed).value;
      var step := RegisterStep(done.0, valid, parsed, table[|table| - 1].0, table[|table| - 1].1, table[|table| - 1].2).value;
      (step.0, done.1 + [step.1])
  {
  }

  /** With a valid file, one step keeps every cached entry and collects the
      object the new cache has for the setting's section and name. */
  lemma {:induction false} RegisterStepHeld(c: Cache, valid: bool, parsed: ParseState, key: (string, string, Value))
    requires valid && RegisterStep(c, valid, parsed, key.0, key.1, key.2).Success?
    ensures Extends(RegisterStep(c, valid, parsed, key.0, key.1, key.2).value.0, c)
    ensures Held(RegisterStep(c, valid, parsed, key.0, key.1, key.2).value.0, key.0, key.1, RegisterStep(c, valid, parsed, key.0, key.1, key.2).value.1)
  {
    ReadSpecKeeps(c, true, parsed, key.0, key.1, key.2);
    ReadSpecFound(c, true, parsed, key.0, key.1, key.2);
  }

  /** The step from the empty cache keeps every entry of the file. */
  lemma {:induction false} RegisterStepParsed(c: Cache, valid: bool, parsed: ParseState, key: (string, string, Value))
    requires valid && |c| == 0 && RegisterStep(c, valid, parsed, key.0, key.1, key.2).Success?
    ensures Extends(RegisterStep(c, valid, parsed, key.0, key.1, key.2).value.0, parsed.cache)
  {
    ReadSpecParsed(c, true, parsed, key.0, key.1, key.2);
  }

  /** Registration collects one object per setting. */
  lemma {:induction false} RegistrationLength(c: Cache, table: seq<(string, string, Value)>, valid: bool, parsed: ParseState)
    requires Registration(c, table, valid, parsed).Success?
    ensures |Registration(c, table, valid, parsed).value.1| == |table|
    decreases |table|
  {
    if table != [] {
      RegistrationUnfold(c, table, valid, parsed);
      RegistrationLength(c, table[..|table| - 1], valid, parsed);
    }
  }

  /** One more setting: registering `table[..k + 1]` is registering
      `table[..k]` and then constructing `table[k]`. */
  lemma {:induction false} RegistrationSnoc(c: Cache, table: seq<(string, string, Value)>, k: nat, done: Cache, vals: seq<Option<Value>>,
                         valid: bool, parsed: ParseState)
    requires k < |table| && Registration(c, table[..k], valid, parsed) == Success((done, vals))
    ensures Registration(c, table[..k + 1], valid, parsed) ==
      match RegisterStep(done, valid, parsed, table[k].0, table[k].1, table[k].2)
      case Failure(e) => Failure(e)
      case Success(step) => Success((step.0, vals + [step.1]))
  {
    assert table[..k + 1][..k] == table[..k];
  }

  /** One more setting whose construction succeeds. */
  lemma {:induction false} RegistrationSnocOk(c: Cache, table: seq<(string, string, Value)>, k: nat, done: Cache, vals: seq<Option<Value>>,
                           valid: bool, parsed: ParseState, c': Cache, v: Option<Value>)
    requires k < |table| && Registration(c, table[..k], valid, parsed) == Success((done, vals))
    requires RegisterStep(done, valid, parsed, table[k].0, table[k].1, table[k].2) == Success((c', v))
    ensures Registration(c, table[..k + 1], valid, parsed) == Success((c', vals + [v]))
  {
    RegistrationSnoc(c, table, k, done, vals, valid, parsed);
  }

  /** A registration that fails on some prefix of the table fails on the
      whole table, with the same error: the first constructor that throws
      ends the load. */
  lemma {:induction false} RegistrationFails(c: Cache, table: seq<(string, string, Value)>, k: nat, valid: bool, parsed: ParseState)
    requires k <= |table| && Registration(c, table[..k], valid, parsed).Failure?
    ensures Registration(c, table, valid, parsed) == Registration(c, table[..k], valid, parsed)
    decreases |table|
  {
    if k < |table| {
      var init := table[..|table| - 1];
      assert init[..k] == table[..k];
      RegistrationFails(c, init, k, valid, parsed);
    } else {
      assert table[..k] == table;
    }
  }

  /** With a valid file, registration never drops or changes a cached
      entry, and collects for every setting the object that the final cache
      has for its section and name. */
  lemma {:induction false} RegistrationHeld(c: Cache, table: seq<(string, string, Value)>, valid: bool, parsed: ParseState)
    requires valid
    requires Registration(c, table, valid, parsed).Success?
    ensures Extends(Registration(c, table, valid, parsed).value.0, c)
    ensures |Registration(c, table, valid, parsed).value.1| == |table|
    ensures forall j :: 0 <= j < |table| ==>
      Held(Registration(c, table, valid, parsed).value.0, table[j].0, table[j].1, Registration(c, table, valid, parsed).value.1[j])
    decreases |table|
  {
    RegistrationLength(c, table, valid, parsed);
    if table != [] {
      var n := |table| - 1;
      var init := table[..n];
      RegistrationUnfold(c, table, valid, parsed);
      RegistrationHeld(c, init, valid, parsed);
      var done := Registration(c, init, valid, parsed).value;
      RegisterStepHeld(done.0, valid, parsed, table[n]);
      var fin := Registration(c, table, valid, parsed).value;
      ExtendsTrans(fin.0, done.0, c);
      forall j | 0 <= j < |table| ensures Held(fin.0, table[j].0, table[j].1, fin.1[j]) {
        if j < n {
          assert table[j] == init[j] && fin.1[j] == done.1[j];
        }
      }
    }
  }

  /** Without a valid file, registration reads nothing and collects no
      object for any setting. */
  lemma {:induction false} RegistrationDefaults(c: Cache, table: seq<(string, string, Value)>, valid: bool, parsed: ParseState)
    requires !(valid)
    ensures Registration(c, table, valid, parsed).Success? && Registration(c, table, valid, parsed).value.0 == c
    ensures |Registration(c, table, valid, parsed).value.1| == |table|
    ensures forall j :: 0 <= j < |table| ==> Registration(c, table, valid, parsed).value.1[j] == None
    decreases |table|
  {
    if table != [] {
      RegistrationDefaults(c, table[..|table| - 1], valid, parsed);
    }
  }

  /** A registration that starts from the empty cache keeps every entry of
      the file: the first read fills the cache from it. */
  lemma {:induction false} RegistrationParsed(c: Cache, table: seq<(string, string, Value)>, valid: bool, parsed: ParseState)
    requires valid && |c| == 0 && |table| > 0
    requires Registration(c, table, valid, parsed).Success?
    ensures Extends(Registration(c, table, valid, parsed).value.0, parsed.cache)
    decreases |table|
  {
    var n := |table| - 1;
    var init := table[..n];
    RegistrationUnfold(c, table, valid, parsed);
    var done := Registration(c, init, valid, parsed).value;
    var fin := Registration(c, table, valid, parsed).value;
    if n == 0 {
      assert done.0 == c;
      RegisterStepParsed(c, valid, parsed, table[n]);
    } else {
      RegistrationParsed(c, init, valid, parsed);
      RegisterStepHeld(done.0, valid, parsed, table[n]);
      ExtendsTrans(fin.0, done.0, parsed.cache);
    }
  }

  /** The cache `c` holds every entry of `d`, unchanged. */
  ghost predicate Extends(c: Cache, d: Cache) {
    forall s, n :: Lookup(d, s, n).Some? ==> Lookup(c, s, n) == Lookup(d, s, n)
  }

  lemma {:induction false} ExtendsTrans(a: Cache, b: Cache, c: Cache)
    requires Extends(a, b) && Extends(b, c)
    ensures Extends(a, c)
  {
  }

  /** Storing the default keeps every entry. */
  lemma {:induction false} InsertDefaultKeeps(c: Cache, section: string, name: string, default: Value)
    ensures Extends(InsertDefault(c, section, name, default), c)
  {
    if !NameAnywhere(c, name) {
      forall s, n | Lookup(c, s, n).Some?
        ensures Lookup(Put(c, section, name, default), s, n) == Lookup(c, s, n)
      {
        assert n != name;
      }
    }
  }

  /** The cached branch keeps every entry. */
  lemma {:induction false} CachedReadKeeps(c: Cache, section: string, name: string, default: Value)
    ensures Extends(CachedRead(c, section, name, default).0, c)
  {
  }

  /** A read never drops or changes a cached entry. */
  lemma {:induction false} ReadSpecKeeps(c: Cache, fileExists: bool, parsed: ParseState, section: string, name: string, default: Value)
    ensures Extends(ReadSpec(c, fileExists, parsed, section, name, default).0, c)
  {
    if |c| == 0 {
      assert c == map[];
    }
  }

  /** A read that succeeds leaves its section and name cached, and returns
      the cached object. */
  lemma {:induction false} ReadSpecFound(c: Cache, fileExists: bool, parsed: ParseState, section: string, name: string, default: Value)
    ensures var (c', r) := ReadSpec(c, fileExists, parsed, section, name, default);
            r.Success? ==> Lookup(c', section, name) == Some(r.value)
  {
  }

  /** The read that fills an empty cache keeps every entry of the file. */
  lemma {:induction false} ReadSpecParsed(c: Cache, fileExists: bool, parsed: ParseState, section: string, name: string, default: Value)
    requires |c| == 0
    ensures ReadSpec(c, fileExists, parsed, section, name, default).1.Success? ==>
            Extends(ReadSpec(c, fileExists, parsed, section, name, default).0, parsed.cache)
  {
    assert c == map[];
    if fileExists {
      var p := parsed;
      if p.error.None? {
        var c1 := InsertDefault(p.cache, section, name, default);
        InsertDefaultKeeps(p.cache, section, name, default);
        CachedReadKeeps(c1, section, name, default);
        ExtendsTrans(CachedRead(c1, section, name, default).0, c1, p.cache);
      }
    }
  }
}
