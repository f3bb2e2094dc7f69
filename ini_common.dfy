/** What the RS_ASIO.ini and Rocksmith.ini stores share: the boxed value a
    setting holds, the integer coercion both readers apply, the errors the
    .NET calls in both throw, and the serialiser both `WriteSettingsFile`
    methods implement (group by section in first-appearance order, one
    `[Section]` header per group, one `name=value` line per setting). */
module IniCommon {
  import opened Wrappers
  import opened Text

  /** The object a setting holds: a boxed `int` or a `string`. */
  datatype Value = IntV(i: int32) | StrV(s: string)

  /** The exceptions the modelled code lets escape. */
  datatype IniError =
    | MissingSeparator(line: string)   // Substring(0, -1) on a line without '='
    | BadSectionHeader(line: string)   // "[".Remove(-1, 1)
    | DuplicateKey(key: string)        // Dictionary.Add of a present key
    | KeyNotFound(key: string)         // Dictionary indexer on an absent key
    | NoSuchSetting(name: string)      // Enumerable.First on an empty sequence
    | NoEntryInSection(name: string)   // list[-1] after FindIndex found nothing
    | SettingsFileMissing              // File.ReadAllLines on a missing file
    | NullValue                        // ToString() on a null Value
    | InvalidCast                      // (int) on a boxed string

  /** `value.ToString()`. */
  function Display(v: Value): string {
    match v
    case IntV(i) => IntToString(i as int)
    case StrV(s) => s
  }

  /** The tail of both `ReadPreviousSetting`s: an int when the value's text
      parses as one, otherwise the cached object unchanged. */
  function Coerce(v: Value): Value {
    match ParseInt(Display(v))
    case Some(n) => IntV(n)
    case None => v
  }

  /** A read's outcome as the reader returns it: the cached object coerced. */
  function CoercedRead(r: Result<Value, IniError>): Result<Value, IniError> {
    match r
    case Success(v) => Success(Coerce(v))
    case Failure(e) => Failure(e)
  }

  /** A setting's value: the object it was given, coerced. */
  function CoercedValue(o: Option<Value>): Option<Value> {
    match o
    case Some(v) => Some(Coerce(v))
    case None => None
  }

  /** A boxed int comes back unchanged. */
  lemma {:induction false} CoerceKeepsInt(i: int32)
    ensures Coerce(IntV(i)) == IntV(i)
  {
    IntToStringParses(i);
  }

  /** A string becomes an int exactly when it parses as one, and then it is
      that int; a string that does not parse is returned as it is. */
  lemma {:induction false} CoerceString(s: string)
    ensures Coerce(StrV(s)).IntV? <==> ParseInt(s).Some?
    ensures ParseInt(s).Some? ==> Coerce(StrV(s)) == IntV(ParseInt(s).value)
    ensures ParseInt(s).None? ==> Coerce(StrV(s)) == StrV(s)
  {
  }

  /** A number's text padded with NUL characters is still cached as that
      number, as `int.TryParse` accepts the padding. */
  lemma {:induction false} CoerceNulPadded(i: int32, n: nat)
    ensures Coerce(StrV(IntToString(i as int) + seq(n, _ => '\0'))) == IntV(i)
  {
    ParseIntNulPadded(IntToString(i as int), n);
    IntToStringParses(i);
  }

  /** Writing a value as text and reading the text back coerces to the same
      value as coercing the original. */
  lemma {:induction false} CoerceOfWritten(v: Value)
    ensures Coerce(StrV(Display(v))) == Coerce(v)
  {
    match v
    case IntV(i) =>
      var d := Display(v);
      IntToStringParses(i);
      assert ParseInt(d) == Some(i);
      calc {
        Coerce(StrV(d));
        IntV(i);
        Coerce(v);
      }
    case StrV(_) =>
  }

  /** Coercing twice changes nothing. */
  lemma {:induction false} CoerceIdempotent(v: Value)
    ensures Coerce(Coerce(v)) == Coerce(v)
  {
    var p := ParseInt(Display(v));
    if p.Some? {
      CoerceKeepsInt(p.value);
    }
  }

  /** The state of one `Settings` object the writers use. */
  datatype View = View(section: string, name: string, defaultValue: Value, value: Option<Value>)

  /** The text written after `name=`: `Value`, or `DefaultValue` when `Value`
      is null. */
  function Written(v: View): string {
    Display(if v.value.Some? then v.value.value else v.defaultValue)
  }

  /** Text that `WriteLine` writes as one line and `ReadAllLines` reads back
      as that same line: it holds no line feed and no carriage return. */
  predicate OneLine(t: string) {
    forall i :: 0 <= i < |t| ==> LineChar(t[i])
  }

  /** A character that does not break a line. */
  predicate LineChar(c: char) {
    c != '\n' && c != '\r'
  }

  /** A setting whose `[Section]` header and entry line stay single lines in
      the file: neither its section nor its written text breaks a line. */
  predicate LineSafe(v: View) {
    OneLine(v.section) && OneLine(Written(v))
  }

  /** The printed form of an `int` never breaks a line. */
  lemma {:induction false} IntOneLine(i: int32)
    ensures OneLine(Display(IntV(i)))
  {
    var d := NatToString(if i < 0 then -(i as int) else i as int);
    assert OneLine(d) by {
      forall k | 0 <= k < |d| ensures LineChar(d[k]) {
        assert IsDigit(d[k]);
      }
    }
    if i < 0 {
      var t := "-" + d;
      assert Display(IntV(i)) == t;
      forall k | 0 <= k < |t| ensures LineChar(t[k]) {
        if k > 0 { assert t[k] == d[k - 1]; }
      }
    }
  }

  function EntryLine(v: View): string {
    v.name + "=" + Written(v)
  }

  function Header(section: string): string {
    "[" + section + "]"
  }

  /** An INI comment line. */
  function Comment(text: string): string {
    ";" + text
  }

  /** The four comment lines RS_ASIO.ini carries under `[Asio]`. */
  const AsioComments: seq<string> := [
    Comment(" available buffer size modes:"),
    Comment("    driver - respect buffer size setting set in the driver"),
    Comment("    host   - use a buffer size as close as possible as that requested by the host application"),
    Comment("    custom - use the buffer size specified in CustomBufferSize field")
  ]

  /** The distinct sections of `vs`, in order of first appearance (the key
      order of the grouping dictionary). */
  function SectionOrder(vs: seq<View>): seq<string> {
    if vs == [] then []
    else
      var o := SectionOrder(vs[..|vs| - 1]);
      var s := vs[|vs| - 1].section;
      if s in o then o else o + [s]
  }

  /** Exactly the sections of the settings occur in the key order. */
  lemma {:induction false} SectionOrderMembers(vs: seq<View>)
    ensures forall s :: s in SectionOrder(vs) <==> exists k :: 0 <= k < |vs| && vs[k].section == s
  {
    if vs != [] {
      var init := vs[..|vs| - 1];
      SectionOrderMembers(init);
      assert forall k :: 0 <= k < |init| ==> init[k] == vs[k];
      var o, last := SectionOrder(init), vs[|vs| - 1].section;
      assert SectionOrder(vs) == if last in o then o else o + [last];
      forall s | s in SectionOrder(vs)
        ensures exists k :: 0 <= k < |vs| && vs[k].section == s
      {
        if s in o {
          var k :| 0 <= k < |init| && init[k].section == s;
          assert vs[k].section == s;
        } else {
          assert vs[|vs| - 1].section == s;
        }
      }
      forall s | exists k :: 0 <= k < |vs| && vs[k].section == s
        ensures s in SectionOrder(vs)
      {
        var k :| 0 <= k < |vs| && vs[k].section == s;
        if k < |vs| - 1 {
          assert init[k].section == s;
        }
      }
    }
  }

  /** No section occurs twice in the key order (one header per section). */
  lemma {:induction false} SectionOrderDistinct(vs: seq<View>)
    ensures forall i, j :: 0 <= i < j < |SectionOrder(vs)| ==> SectionOrder(vs)[i] != SectionOrder(vs)[j]
  {
    if vs != [] {
      SectionOrderDistinct(vs[..|vs| - 1]);
    }
  }

  /** Appending a run of settings of one new section adds that section once,
      at the end of the key order. */
  lemma {:induction false} SectionOrderBlock(a: seq<View>, b: seq<View>, s: string)
    requires b != [] && s !in SectionOrder(a)
    requires forall k :: 0 <= k < |b| ==> b[k].section == s
    ensures SectionOrder(a + b) == SectionOrder(a) + [s]
    decreases |b|
  {
    var ab := a + b;
    assert ab[..|ab| - 1] == a + b[..|b| - 1];
    assert ab[|ab| - 1] == b[|b| - 1];
    if |b| == 1 {
      assert a + b[..0] == a;
    } else {
      SectionOrderBlock(a, b[..|b| - 1], s);
    }
  }

  /** Settings of one section stand together in the list. */
  predicate Contiguous(vs: seq<View>) {
    forall i, j, k :: 0 <= i < j < k < |vs| && vs[i].section == vs[k].section ==> vs[j].section == vs[i].section
  }

  /** A contiguous list stays contiguous when a run of a section it does not
      hold yet is appended. */
  lemma {:induction false} ContiguousBlock(a: seq<View>, b: seq<View>, s: string)
    requires Contiguous(a)
    requires forall k :: 0 <= k < |a| ==> a[k].section != s
    requires forall k :: 0 <= k < |b| ==> b[k].section == s
    ensures Contiguous(a + b)
  {
    var ab := a + b;
    forall i, j, k | 0 <= i < j < k < |ab| && ab[i].section == ab[k].section
      ensures ab[j].section == ab[i].section
    {
      if k < |a| {
        assert ab[i] == a[i] && ab[j] == a[j] && ab[k] == a[k];
      } else {
        assert ab[k] == b[k - |a|];
        if i >= |a| {
          assert ab[j] == b[j - |a|] && ab[i] == b[i - |a|];
        }
      }
    }
  }

  /** A run of settings of a new section, appended to a contiguous prefix. */
  lemma {:induction false} LayoutStep(vs: seq<View>, lo: int, hi: int, seen: seq<string>, s: string)
    requires 0 <= lo < hi <= |vs| && s !in seen
    requires SectionOrder(vs[..lo]) == seen && Contiguous(vs[..lo])
    requires forall k :: 0 <= k < lo ==> vs[k].section in seen
    requires forall k :: lo <= k < hi ==> vs[k].section == s
    ensures SectionOrder(vs[..hi]) == seen + [s] && Contiguous(vs[..hi])
    ensures forall k :: 0 <= k < hi ==> vs[k].section in seen + [s]
  {
    var block := vs[lo..hi];
    assert vs[..hi] == vs[..lo] + block;
    assert forall k :: 0 <= k < |block| ==> block[k].section == s by {
      forall k | 0 <= k < |block| ensures block[k].section == s {
        assert block[k] == vs[lo + k];
      }
    }
    SectionOrderBlock(vs[..lo], block, s);
    ContiguousBlock(vs[..lo], block, s);
  }

  /** The settings of one section, in list order. */
  function Group(vs: seq<View>, section: string): seq<View> {
    if vs == [] then []
    else Group(vs[..|vs| - 1], section) + (if vs[|vs| - 1].section == section then [vs[|vs| - 1]] else [])
  }

  /** A group holds only its section's settings, and is empty exactly when
      no setting is in the section. */
  lemma {:induction false} GroupSpec(vs: seq<View>, section: string)
    ensures forall k :: 0 <= k < |Group(vs, section)| ==> Group(vs, section)[k].section == section
    ensures Group(vs, section) != [] <==> exists k :: 0 <= k < |vs| && vs[k].section == section
  {
    if vs != [] {
      var init := vs[..|vs| - 1];
      GroupSpec(init, section);
      assert forall k :: 0 <= k < |init| ==> init[k] == vs[k];
    }
  }

  /** The grouping dictionary built by the first loop of `WriteSettingsFile`. */
  function GroupMap(vs: seq<View>): map<string, seq<View>> {
    map s | s in SectionOrder(vs) :: Group(vs, s)
  }

  /** `List.FindIndex(setting => setting.SettingName == name)`. */
  function FindIndex(g: seq<View>, name: string): (r: int)
    ensures -1 <= r < |g|
  {
    if g == [] then -1
    else if g[0].name == name then 0
    else
      var k := FindIndex(g[1..], name);
      if k < 0 then -1 else k + 1
  }

  /** `FindIndex` finds the first setting of that name, and -1 exactly when
      there is none. */
  lemma {:induction false} FindIndexSpec(g: seq<View>, name: string)
    ensures 0 <= FindIndex(g, name) ==> g[FindIndex(g, name)].name == name
    ensures forall k :: 0 <= k < FindIndex(g, name) ==> g[k].name != name
    ensures FindIndex(g, name) == -1 <==> forall k :: 0 <= k < |g| ==> g[k].name != name
  {
    if g != [] && g[0].name != name {
      FindIndexSpec(g[1..], name);
      assert forall k :: 1 <= k < |g| ==> g[k] == g[1..][k - 1];
    }
  }

  function EntryLines(g: seq<View>): seq<string> {
    if g == [] then [] else EntryLines(g[..|g| - 1]) + [EntryLine(g[|g| - 1])]
  }

  /** One section: its header, the comment block when it is RS_ASIO's
      `[Asio]` and has a setting, then its settings. */
  function Block(section: string, g: seq<View>, asio: bool): seq<string> {
    [Header(section)] + (if asio && section == "Asio" && |g| > 0 then AsioComments else []) + EntryLines(g)
  }

  function RenderGroups(order: seq<string>, groups: map<string, seq<View>>, asio: bool): seq<string>
    requires forall s :: s in order ==> s in groups
  {
    if order == [] then []
    else
      var last := order[|order| - 1];
      RenderGroups(order[..|order| - 1], groups, asio) + Block(last, groups[last], asio)
  }

  /** The file `WriteSettingsFile()` writes for the settings `vs`; `asio`
      selects RS_ASIO.ini's comment block. */
  function Render(vs: seq<View>, asio: bool): seq<string> {
    RenderGroups(SectionOrder(vs), GroupMap(vs), asio)
  }

  /** `WriteSettingsFile(changed)`: with a changed setting, the first setting
      of the same name in its section's group is swapped for it first. */
  function WriteSpec(vs: seq<View>, changed: Option<View>, asio: bool): Result<seq<string>, IniError> {
    var groups := GroupMap(vs);
    match changed
    case None => Success(RenderGroups(SectionOrder(vs), groups, asio))
    case Some(c) =>
      if c.section !in groups then Failure(KeyNotFound(c.section))
      else
        var idx := FindIndex(groups[c.section], c.name);
        if idx < 0 then Failure(NoEntryInSection(c.name))
        else Success(RenderGroups(SectionOrder(vs), groups[c.section := groups[c.section][idx := c]], asio))
  }

  lemma {:induction false} PrefixStep(vs: seq<View>, i: nat, t: string)
    requires i < |vs|
    ensures Group(vs[..i + 1], t) == Group(vs[..i], t) + (if vs[i].section == t then [vs[i]] else [])
    ensures var o := SectionOrder(vs[..i]);
            SectionOrder(vs[..i + 1]) == if vs[i].section in o then o else o + [vs[i].section]
  {
    assert vs[..i + 1][..i] == vs[..i];
  }

  /** Adding one setting appends it to its section's group, creating the
      group when the section is new. */
  lemma {:induction false} GroupMapStep(vs: seq<View>, i: nat)
    requires i < |vs|
    ensures var s := vs[i].section;
            var m := GroupMap(vs[..i]);
            GroupMap(vs[..i + 1]) == if s in m then m[s := m[s] + [vs[i]]] else m[s := [vs[i]]]
  {
    var s := vs[i].section;
    var m, m2 := GroupMap(vs[..i]), GroupMap(vs[..i + 1]);
    var expected := if s in m then m[s := m[s] + [vs[i]]] else m[s := [vs[i]]];
    PrefixStep(vs, i, s);
    assert m2.Keys == expected.Keys;
    forall t | t in expected ensures m2[t] == expected[t] {
      GroupMapAt(vs, i, t);
    }
  }

  /** The group of one section after adding one setting. */
  lemma {:induction false} GroupMapAt(vs: seq<View>, i: nat, t: string)
    requires i < |vs| && t in SectionOrder(vs[..i + 1])
    ensures var m := GroupMap(vs[..i]);
            GroupMap(vs[..i + 1])[t] == (if t in m then m[t] else []) + (if vs[i].section == t then [vs[i]] else [])
  {
    PrefixStep(vs, i, t);
    if t !in SectionOrder(vs[..i]) {
      SectionOrderMembers(vs[..i]);
      GroupSpec(vs[..i], t);
    }
  }

  /** The first loop of `WriteSettingsFile`: the grouping dictionary and its
      key order. */
  method GroupBySection(vs: seq<View>) returns (order: seq<string>, groups: map<string, seq<View>>)
    ensures order == SectionOrder(vs) && groups == GroupMap(vs)
  {
    order, groups := [], map[];
    var i := 0;
    while i < |vs|
      invariant 0 <= i <= |vs|
      invariant order == SectionOrder(vs[..i])
      invariant groups == GroupMap(vs[..i])
    {
      var setting := vs[i];
      GroupMapStep(vs, i);
      assert vs[..i + 1][..i] == vs[..i];
      if setting.section in groups {
        groups := groups[setting.section := groups[setting.section] + [setting]];
      } else {
        groups := groups[setting.section := [setting]];
        order := order + [setting.section];
      }
      i := i + 1;
    }
    assert vs[..i] == vs;
  }

  /** The lines for one section, with the `pastedAsioComments` flag. */
  method EmitSection(section: string, g: seq<View>, asio: bool) returns (out: seq<string>)
    ensures out == Block(section, g, asio)
  {
    out := [Header(section)];
    var pastedAsioComments := false;
    var j := 0;
    while j < |g|
      invariant 0 <= j <= |g|
      invariant pastedAsioComments == (asio && section == "Asio" && j > 0)
      invariant out == [Header(section)] + (if pastedAsioComments then AsioComments else []) + EntryLines(g[..j])
    {
      if asio && section == "Asio" && !pastedAsioComments {
        out := out + AsioComments;
        pastedAsioComments := true;
      }
      assert g[..j + 1][..j] == g[..j];
      out := out + [EntryLine(g[j])];
      j := j + 1;
    }
    assert g[..j] == g;
  }

  /** The body of both `WriteSettingsFile`s, minus the file: group the
      settings by section, swap in the changed setting, and emit each section
      (with RS_ASIO's comment block before the first setting of `[Asio]`). */
  method SerializeSettings(vs: seq<View>, changed: Option<View>, asio: bool)
    returns (r: Result<seq<string>, IniError>)
    ensures r == WriteSpec(vs, changed, asio)
    ensures changed.None? ==> r == Success(Render(vs, asio))
  {
    var order, groups := GroupBySection(vs);
    if changed.Some? {
      var c := changed.value;
      if c.section !in groups {
        return Failure(KeyNotFound(c.section));
      }
      var idx := FindIndex(groups[c.section], c.name);
      if idx < 0 {
        return Failure(NoEntryInSection(c.name));
      }
      groups := groups[c.section := groups[c.section][idx := c]];
    }
    var out := EmitSections(order, groups, asio);
    r := Success(out);
  }

  /** The second loop of `WriteSettingsFile`: every section in key order. */
  method EmitSections(order: seq<string>, groups: map<string, seq<View>>, asio: bool) returns (out: seq<string>)
    requires forall s :: s in order ==> s in groups
    ensures out == RenderGroups(order, groups, asio)
  {
    out := [];
    var k := 0;
    while k < |order|
      invariant 0 <= k <= |order|
      invariant out == RenderGroups(order[..k], groups, asio)
    {
      assert order[..k + 1][..k] == order[..k];
      var block := EmitSection(order[k], groups[order[k]], asio);
      out := out + block;
      k := k + 1;
    }
    assert order[..k] == order;
  }

  /** The position of the first setting with this section and name, or -1. */
  function FirstAt(vs: seq<View>, section: string, name: string): (r: int)
    ensures -1 <= r < |vs|
    ensures 0 <= r ==> vs[r].section == section && vs[r].name == name
  {
    if vs == [] then -1
    else
      var r := FirstAt(vs[..|vs| - 1], section, name);
      if 0 <= r then r
      else if vs[|vs| - 1].section == section && vs[|vs| - 1].name == name then |vs| - 1
      else -1
  }

  /** No setting before the first one matches; -1 exactly when none does. */
  lemma {:induction false} FirstAtSpec(vs: seq<View>, section: string, name: string)
    ensures forall k :: 0 <= k < |vs| && (FirstAt(vs, section, name) < 0 || k < FirstAt(vs, section, name)) ==>
      !(vs[k].section == section && vs[k].name == name)
    decreases |vs|
  {
    if vs != [] {
      var init := vs[..|vs| - 1];
      FirstAtSpec(init, section, name);
      assert forall k :: 0 <= k < |init| ==> init[k] == vs[k];
    }
  }

  /** `FindIndex` over two lists: a hit in the first, or one in the second
      shifted past the first. */
  lemma {:induction false} FindIndexAppend(a: seq<View>, b: seq<View>, name: string)
    ensures FindIndex(a + b, name) ==
      if 0 <= FindIndex(a, name) then FindIndex(a, name)
      else if 0 <= FindIndex(b, name) then |a| + FindIndex(b, name)
      else -1
    decreases |a|
  {
    if a != [] && a[0].name != name {
      assert (a + b)[1..] == a[1..] + b;
      FindIndexAppend(a[1..], b, name);
    } else if a == [] {
      assert a + b == b;
    }
  }

  /** Within a section's group, `FindIndex` lands on the first setting of
      the list with that section and name: it sits after the part of the
      group that precedes it in the list. */
  lemma {:induction false} GroupFindIndex(vs: seq<View>, section: string, name: string)
    ensures var j := FirstAt(vs, section, name);
      FindIndex(Group(vs, section), name) == if j < 0 then -1 else |Group(vs[..j], section)|
    decreases |vs|
  {
    if vs != [] {
      var init, v := vs[..|vs| - 1], vs[|vs| - 1];
      var tail := if v.section == section then [v] else [];
      GroupFindIndex(init, section, name);
      FindIndexAppend(Group(init, section), tail, name);
      var j := FirstAt(init, section, name);
      if 0 <= j {
        assert vs[..j] == init[..j];
      } else if v.section == section && v.name == name {
        assert vs[..|vs| - 1] == init;
      }
    }
  }

  /** Putting `c` in place of a setting of the same section changes only
      that section's group, at the setting's place in it. */
  lemma {:induction false} GroupReplace(vs: seq<View>, j: int, c: View, t: string)
    requires 0 <= j < |vs| && c.section == vs[j].section
    ensures t == c.section ==>
      |Group(vs[..j], t)| < |Group(vs, t)| && Group(vs[j := c], t) == Group(vs, t)[|Group(vs[..j], t)| := c]
    ensures t != c.section ==> Group(vs[j := c], t) == Group(vs, t)
    decreases |vs|
  {
    var w := vs[j := c];
    var init := vs[..|vs| - 1];
    if j == |vs| - 1 {
      assert w[..|w| - 1] == init && w[|w| - 1] == c;
      assert vs[..j] == init;
    } else {
      assert w[..|w| - 1] == init[j := c] && w[|w| - 1] == vs[|vs| - 1];
      GroupReplace(init, j, c, t);
      assert init[..j] == vs[..j];
    }
  }

  /** Putting `c` in place of a setting of the same section keeps the key
      order. */
  lemma {:induction false} SectionOrderReplace(vs: seq<View>, j: int, c: View)
    requires 0 <= j < |vs| && c.section == vs[j].section
    ensures SectionOrder(vs[j := c]) == SectionOrder(vs)
    decreases |vs|
  {
    var w := vs[j := c];
    var init := vs[..|vs| - 1];
    if j == |vs| - 1 {
      assert w[..|w| - 1] == init && w[|w| - 1] == c;
    } else {
      assert w[..|w| - 1] == init[j := c] && w[|w| - 1] == vs[|vs| - 1];
      SectionOrderReplace(init, j, c);
    }
  }

  /** The grouping dictionary after putting `c` in place of a setting of
      the same section. */
  lemma {:induction false} GroupMapReplace(vs: seq<View>, j: int, c: View)
    requires 0 <= j < |vs| && c.section == vs[j].section
    ensures c.section in GroupMap(vs) && |Group(vs[..j], c.section)| < |Group(vs, c.section)|
    ensures GroupMap(vs[j := c]) ==
      GroupMap(vs)[c.section := Group(vs, c.section)[|Group(vs[..j], c.section)| := c]]
  {
    var s := c.section;
    SectionOrderReplace(vs, j, c);
    SectionOrderMembers(vs);
    GroupReplace(vs, j, c, s);
    var m := GroupMap(vs)[s := Group(vs, s)[|Group(vs[..j], s)| := c]];
    forall t | t in m ensures GroupMap(vs[j := c])[t] == m[t] {
      GroupReplace(vs, j, c, t);
    }
  }

  /** A changed setting that some setting of the list matches is swapped
      in for the first of them. */
  lemma {:induction false} ChangedFound(vs: seq<View>, c: View, asio: bool)
    requires 0 <= FirstAt(vs, c.section, c.name)
    ensures WriteSpec(vs, Some(c), asio) == Success(Render(vs[FirstAt(vs, c.section, c.name) := c], asio))
  {
    var s, j := c.section, FirstAt(vs, c.section, c.name);
    var groups := GroupMap(vs);
    var idx := |Group(vs[..j], s)|;
    assert s in groups && idx < |groups[s]| by {
      GroupMapReplace(vs, j, c);
    }
    assert FindIndex(groups[s], c.name) == idx by {
      GroupFindIndex(vs, s, c.name);
    }
    var m := groups[s := groups[s][idx := c]];
    assert Render(vs[j := c], asio) == RenderGroups(SectionOrder(vs), m, asio) by {
      GroupMapReplace(vs, j, c);
      SectionOrderReplace(vs, j, c);
    }
  }

  /** A changed setting whose section has no setting makes the write throw
      from the dictionary. */
  lemma {:induction false} ChangedNoSection(vs: seq<View>, c: View, asio: bool)
    requires forall k :: 0 <= k < |vs| ==> vs[k].section != c.section
    ensures WriteSpec(vs, Some(c), asio) == Failure(KeyNotFound(c.section))
  {
    assert c.section !in SectionOrder(vs) by {
      SectionOrderMembers(vs);
    }
  }

  /** No setting of that section and name: `FindIndex` finds nothing in the
      section's group. */
  lemma {:induction false} GroupFindIndexNone(vs: seq<View>, section: string, name: string)
    requires FirstAt(vs, section, name) < 0
    ensures FindIndex(Group(vs, section), name) == -1
  {
    GroupFindIndex(vs, section, name);
  }

  /** The section of every setting is in the key order. */
  lemma {:induction false} SectionOrderHas(vs: seq<View>, k: int)
    requires 0 <= k < |vs|
    ensures vs[k].section in SectionOrder(vs)
    decreases |vs|
  {
    if k < |vs| - 1 {
      SectionOrderHas(vs[..|vs| - 1], k);
    }
  }

  /** A changed setting whose section has settings but none of its name
      makes the write throw from the list index. */
  lemma {:induction false} ChangedNoName(vs: seq<View>, c: View, asio: bool, k: int)
    requires 0 <= k < |vs| && vs[k].section == c.section
    requires FirstAt(vs, c.section, c.name) < 0
    ensures WriteSpec(vs, Some(c), asio) == Failure(NoEntryInSection(c.name))
  {
    SectionOrderHas(vs, k);
    var g := GroupMap(vs)[c.section];
    assert g == Group(vs, c.section);
    GroupFindIndexNone(vs, c.section, c.name);
  }

  /** `WriteSettingsFile(changed)` against the list itself: it fails exactly
      when no setting has the changed setting's section and name (a missing
      section throws from the dictionary, a missing name from the list
      index), and otherwise writes the file of the list with the first such
      setting replaced by `changed`. */
  lemma {:induction false} ChangedReplacesFirst(vs: seq<View>, c: View, asio: bool)
    ensures WriteSpec(vs, Some(c), asio).Failure? <==> FirstAt(vs, c.section, c.name) < 0
    ensures WriteSpec(vs, Some(c), asio).Failure? ==>
      WriteSpec(vs, Some(c), asio).error ==
        if exists k :: 0 <= k < |vs| && vs[k].section == c.section then NoEntryInSection(c.name) else KeyNotFound(c.section)
    ensures 0 <= FirstAt(vs, c.section, c.name) ==>
      WriteSpec(vs, Some(c), asio) == Success(Render(vs[FirstAt(vs, c.section, c.name) := c], asio))
  {
    if 0 <= FirstAt(vs, c.section, c.name) {
      ChangedFound(vs, c, asio);
    } else if k :| 0 <= k < |vs| && vs[k].section == c.section {
      ChangedNoName(vs, c, asio, k);
    } else {
      ChangedNoSection(vs, c, asio);
    }
  }

  /** What `WriteSettingsFile` leaves behind: the new lines, or an empty
      file and the exception. */
  function WriteOutcome(w: Result<seq<string>, IniError>): (Result<(), IniError>, seq<string>) {
    match w
    case Success(lines) => (Success(()), lines)
    case Failure(e) => (Failure(e), [])
  }

  /** The settings `table` registers, holding the values `vals`. */
  function RegisteredViews(table: seq<(string, string, Value)>, vals: seq<Option<Value>>): (r: seq<View>)
    requires |vals| == |table|
    ensures |r| == |table|
    ensures forall k :: 0 <= k < |table| ==>
      r[k] == View(table[k].0, table[k].1, table[k].2, vals[k])
  {
    seq(|table|, k requires 0 <= k < |table| => View(table[k].0, table[k].1, table[k].2, vals[k]))
  }

  /** Helper: a table whose sections and defaults stay on one line, holding
      values that do too, registers settings whose lines all stay single. */
  lemma {:induction false} RegisteredLineSafe(table: seq<(string, string, Value)>, vals: seq<Option<Value>>)
    requires |vals| == |table|
    requires forall k :: 0 <= k < |table| ==> OneLine(table[k].0) && OneLine(Display(table[k].2))
    requires forall k :: 0 <= k < |vals| && vals[k].Some? ==> OneLine(Display(vals[k].value))
    ensures forall k :: 0 <= k < |table| ==> LineSafe(RegisteredViews(table, vals)[k])
  {
    var vs := RegisteredViews(table, vals);
    forall k | 0 <= k < |table| ensures LineSafe(vs[k]) {
      assert vs[k] == View(table[k].0, table[k].1, table[k].2, vals[k]);
    }
  }

  /** The values settings hold after being given the objects `vals`. */
  function CoercedAll(vals: seq<Option<Value>>): (r: seq<Option<Value>>)
    ensures |r| == |vals|
    decreases |vals|
  {
    if vals == [] then [] else CoercedAll(vals[..|vals| - 1]) + [CoercedValue(vals[|vals| - 1])]
  }

  /** Each value is its object coerced. */
  lemma {:induction false} CoercedAllAt(vals: seq<Option<Value>>, k: int)
    requires 0 <= k < |vals|
    ensures CoercedAll(vals)[k] == CoercedValue(vals[k])
    decreases |vals|
  {
    if k < |vals| - 1 {
      CoercedAllAt(vals[..|vals| - 1], k);
    }
  }
}
