/** `Log`: the settings dumps and the song summary written to output.log.
    The file is the sequence of the lines passed to `WriteLine`; a dump is
    given the loaded settings as `View`s, in list order. */
module DiagLog {
  import opened Wrappers
  import opened Text
  import opened IniCommon
  import opened SongManager
  import AsioSettings
  import AsioRoundTrip
  import RocksmithSettings
  import RocksmithRoundTrip

  const RocksmithTitle := "Rocksmith.ini is as follows"
  const AsioTitle := "RS_ASIO.ini is as follows"

  /** A line of a dump: a section header or a setting. */
  datatype Item = HeaderItem(section: string) | SettingItem(name: string, value: Option<Value>)

  /** String concatenation shows a null `Value` as nothing; there is no
      fallback to the default here. */
  function Shown(o: Option<Value>): string {
    if o.Some? then Display(o.value) else ""
  }

  function ItemText(it: Item): string {
    match it
    case HeaderItem(s) => "  " + "[" + s + "]"
    case SettingItem(n, v) => "  " + n + "=" + Shown(v)
  }

  function Texts(items: seq<Item>): (r: seq<string>)
    ensures |r| == |items|
  {
    seq(|items|, i requires 0 <= i < |items| => ItemText(items[i]))
  }

  lemma {:induction false} TextsAppend(a: seq<Item>, b: seq<Item>)
    ensures Texts(a + b) == Texts(a) + Texts(b)
  {
  }

  /** The section the loop remembers before setting `k`: that of the
      setting before it, or "" at the start. */
  function Prev(vs: seq<View>, k: int): string
    requires 0 <= k <= |vs|
  {
    if k == 0 then "" else vs[k - 1].section
  }

  /** What the dump writes for setting `k`: a header when its section
      differs from the remembered one, then the setting. */
  function Step(vs: seq<View>, k: int): seq<Item>
    requires 0 <= k < |vs|
  {
    (if vs[k].section != Prev(vs, k) then [HeaderItem(vs[k].section)] else [])
    + [SettingItem(vs[k].name, vs[k].value)]
  }

  /** The items written for the first `i` settings. */
  function ItemsUpTo(vs: seq<View>, i: int): seq<Item>
    requires 0 <= i <= |vs|
  {
    if i == 0 then [] else ItemsUpTo(vs, i - 1) + Step(vs, i - 1)
  }

  function Items(vs: seq<View>): seq<Item> {
    ItemsUpTo(vs, |vs|)
  }

  /** `DumpRocksmithINI` and `DumpASIO`, which differ only in the title. */
  method Dump(title: string, vs: seq<View>) returns (lines: seq<string>)
    ensures lines == [title] + Texts(Items(vs)) + ["\n"]
  {
    lines := [title];
    var section := "";
    for i := 0 to |vs|
      invariant section == Prev(vs, i)
      invariant lines == [title] + Texts(ItemsUpTo(vs, i))
    {
      var setting := vs[i];
      ghost var added: seq<Item> := [];
      if setting.section != section {
        section := setting.section;
        lines := lines + ["  " + "[" + section + "]"];
        added := [HeaderItem(section)];
      }
      lines := lines + ["  " + setting.name + "=" + Shown(setting.value)];
      added := added + [SettingItem(setting.name, setting.value)];
      assert added == Step(vs, i);
      TextsAppend(ItemsUpTo(vs, i), added);
    }
    lines := lines + ["\n"];
  }

  method DumpRocksmithIni(loaded: seq<View>) returns (lines: seq<string>)
    ensures lines == [RocksmithTitle] + Texts(Items(loaded)) + ["\n"]
  {
    lines := Dump(RocksmithTitle, loaded);
  }

  method DumpAsio(loaded: seq<View>) returns (lines: seq<string>)
    ensures lines == [AsioTitle] + Texts(Items(loaded)) + ["\n"]
  {
    lines := Dump(AsioTitle, loaded);
  }

  /** The setting items of a dump, in order. */
  function SettingItems(items: seq<Item>): seq<Item> {
    if items == [] then []
    else (if items[0].SettingItem? then [items[0]] else []) + SettingItems(items[1..])
  }

  /** The sections of the header items of a dump, in order. */
  function Headers(items: seq<Item>): seq<string> {
    if items == [] then []
    else (if items[0].HeaderItem? then [items[0].section] else []) + Headers(items[1..])
  }

  lemma {:induction false} SettingItemsAppend(a: seq<Item>, b: seq<Item>)
    ensures SettingItems(a + b) == SettingItems(a) + SettingItems(b)
  {
    if a == [] {
      assert a + b == b;
    } else {
      var h := if a[0].SettingItem? then [a[0]] else [];
      calc {
        SettingItems(a + b);
        { assert (a + b)[0] == a[0]; assert (a + b)[1..] == a[1..] + b; }
        h + SettingItems(a[1..] + b);
        { SettingItemsAppend(a[1..], b); }
        h + (SettingItems(a[1..]) + SettingItems(b));
        { assert h + (SettingItems(a[1..]) + SettingItems(b)) == (h + SettingItems(a[1..])) + SettingItems(b); }
        SettingItems(a) + SettingItems(b);
      }
    }
  }

  lemma {:induction false} HeadersAppend(a: seq<Item>, b: seq<Item>)
    ensures Headers(a + b) == Headers(a) + Headers(b)
  {
    if a == [] {
      assert a + b == b;
    } else {
      var h := if a[0].HeaderItem? then [a[0].section] else [];
      calc {
        Headers(a + b);
        { assert (a + b)[0] == a[0]; assert (a + b)[1..] == a[1..] + b; }
        h + Headers(a[1..] + b);
        { HeadersAppend(a[1..], b); }
        h + (Headers(a[1..]) + Headers(b));
        { assert h + (Headers(a[1..]) + Headers(b)) == (h + Headers(a[1..])) + Headers(b); }
        Headers(a) + Headers(b);
      }
    }
  }

  /** One setting's step holds its setting ... */
  lemma {:induction false} StepSetting(vs: seq<View>, k: int)
    requires 0 <= k < |vs|
    ensures SettingItems(Step(vs, k)) == [SettingItem(vs[k].name, vs[k].value)]
  {
    var h := if vs[k].section != Prev(vs, k) then [HeaderItem(vs[k].section)] else [];
    var s := [SettingItem(vs[k].name, vs[k].value)];
    SettingItemsAppend(h, s);
    assert s[1..] == [];
  }

  /** ... and, when the section changes, its header. */
  lemma {:induction false} StepHeader(vs: seq<View>, k: int)
    requires 0 <= k < |vs|
    ensures Headers(Step(vs, k)) == if vs[k].section != Prev(vs, k) then [vs[k].section] else []
  {
    var h := if vs[k].section != Prev(vs, k) then [HeaderItem(vs[k].section)] else [];
    var s := [SettingItem(vs[k].name, vs[k].value)];
    HeadersAppend(h, s);
    assert s[1..] == [];
    if h != [] {
      assert h[1..] == [];
    }
  }

  /** The setting line items of the first `i` settings, one each. */
  function SettingsOf(vs: seq<View>, i: int): seq<Item>
    requires 0 <= i <= |vs|
  {
    if i == 0 then [] else SettingsOf(vs, i - 1) + [SettingItem(vs[i - 1].name, vs[i - 1].value)]
  }

  lemma {:induction false} SettingsOfSpec(vs: seq<View>, i: int)
    requires 0 <= i <= |vs|
    ensures |SettingsOf(vs, i)| == i
    ensures forall k :: 0 <= k < i ==> SettingsOf(vs, i)[k] == SettingItem(vs[k].name, vs[k].value)
  {
    if i > 0 {
      SettingsOfSpec(vs, i - 1);
    }
  }

  lemma {:induction false} DumpSettingsUpTo(vs: seq<View>, i: int)
    requires 0 <= i <= |vs|
    ensures SettingItems(ItemsUpTo(vs, i)) == SettingsOf(vs, i)
  {
    if i > 0 {
      calc {
        SettingItems(ItemsUpTo(vs, i));
        SettingItems(ItemsUpTo(vs, i - 1) + Step(vs, i - 1));
        { SettingItemsAppend(ItemsUpTo(vs, i - 1), Step(vs, i - 1)); }
        SettingItems(ItemsUpTo(vs, i - 1)) + SettingItems(Step(vs, i - 1));
        { DumpSettingsUpTo(vs, i - 1); StepSetting(vs, i - 1); }
        SettingsOf(vs, i - 1) + [SettingItem(vs[i - 1].name, vs[i - 1].value)];
      }
    }
  }

  /** Exactly one value line per setting, in list order, with a null value
      shown empty. */
  lemma {:induction false} DumpSettings(vs: seq<View>)
    ensures |SettingItems(Items(vs))| == |vs|
    ensures forall k :: 0 <= k < |vs| ==> SettingItems(Items(vs))[k] == SettingItem(vs[k].name, vs[k].value)
  {
    DumpSettingsUpTo(vs, |vs|);
    SettingsOfSpec(vs, |vs|);
  }

  lemma {:induction false} DumpHeadersUpTo(vs: seq<View>, i: int)
    requires 0 <= i <= |vs|
    requires Contiguous(vs) && (vs == [] || vs[0].section != "")
    ensures Headers(ItemsUpTo(vs, i)) == SectionOrder(vs[..i])
  {
    if i > 0 {
      var init := vs[..i - 1];
      var sec := vs[i - 1].section;
      calc {
        Headers(ItemsUpTo(vs, i));
        Headers(ItemsUpTo(vs, i - 1) + Step(vs, i - 1));
        { HeadersAppend(ItemsUpTo(vs, i - 1), Step(vs, i - 1)); }
        Headers(ItemsUpTo(vs, i - 1)) + Headers(Step(vs, i - 1));
        { DumpHeadersUpTo(vs, i - 1); StepHeader(vs, i - 1); }
        SectionOrder(init) + (if sec != Prev(vs, i - 1) then [sec] else []);
        { LastSeen(vs, i); assert SectionOrder(init) + [] == SectionOrder(init); }
        if sec in SectionOrder(init) then SectionOrder(init) else SectionOrder(init) + [sec];
        { assert vs[..i][..i - 1] == init; }
        SectionOrder(vs[..i]);
      }
    }
  }

  /** In a contiguous list, a setting's section was seen before exactly
      when it is the section of the setting just before it. */
  lemma {:induction false} LastSeen(vs: seq<View>, i: int)
    requires Contiguous(vs) && 0 < i <= |vs| && vs[0].section != ""
    ensures vs[i - 1].section in SectionOrder(vs[..i - 1]) <==> Prev(vs, i - 1) == vs[i - 1].section
  {
    var init := vs[..i - 1];
    var sec := vs[i - 1].section;
    SectionOrderMembers(init);
    if sec in SectionOrder(init) {
      var k :| 0 <= k < i - 1 && init[k].section == sec;
      assert vs[k].section == sec;
      if k < i - 2 {
        assert vs[i - 2].section == vs[k].section;
      }
    }
    if i == 1 {
      assert init == [];
    } else if sec == Prev(vs, i - 1) {
      assert init[i - 2].section == sec;
    }
  }

  /** For a list built section by section, as both `LoadSettings`
      constructors build it, the dump writes one header per section, in
      the order `WriteSettingsFile` writes them. */
  lemma {:induction false} DumpHeadersContiguous(vs: seq<View>)
    requires Contiguous(vs) && (vs == [] || vs[0].section != "")
    ensures Headers(Items(vs)) == SectionOrder(vs)
  {
    calc {
      Headers(Items(vs));
      Headers(ItemsUpTo(vs, |vs|));
      { DumpHeadersUpTo(vs, |vs|); }
      SectionOrder(vs[..|vs|]);
      { assert vs[..|vs|] == vs; }
      SectionOrder(vs);
    }
  }

  /** The RS_ASIO dump of the 26 registered settings: one header per
      section, in the order RS_ASIO.ini has them. */
  lemma {:induction false} AsioDumpHeaders(vals: seq<Option<Value>>)
    requires |vals| == |AsioSettings.Registered|
    ensures Headers(Items(RegisteredViews(AsioSettings.Registered, vals))) ==
      ["Config", "Asio", "Asio.Output", "Asio.Input.0", "Asio.Input.1", "Asio.Input.Mic"]
  {
    var vs := RegisteredViews(AsioSettings.Registered, vals);
    AsioRoundTrip.RegisteredLayout(vals);
    assert vs[0].section == "Config";
    DumpHeadersContiguous(vs);
  }

  /** The Rocksmith dump of the 25 registered settings: one header per
      section, in the order Rocksmith.ini has them. */
  lemma {:induction false} RocksmithDumpHeaders(vals: seq<Option<Value>>)
    requires |vals| == |RocksmithSettings.Registered|
    ensures Headers(Items(RegisteredViews(RocksmithSettings.Registered, vals))) == ["Audio", "Renderer.Win32", "Net"]
  {
    var vs := RegisteredViews(RocksmithSettings.Registered, vals);
    RocksmithRoundTrip.RegisteredLayout(vals);
    assert vs[0].section == "Audio";
    DumpHeadersContiguous(vs);
  }

  // ------------------------------------------------------------------
  // Songs

  /** `Songs.Where(ODLC && RS1AppID == 0)`, in dictionary order. */
  function OfficialOnly(songs: seq<SongData>): seq<SongData> {
    if songs == [] then []
    else
      var n := |songs| - 1;
      OfficialOnly(songs[..n]) + (if songs[n].odlc && songs[n].rs1AppId == 0 then [songs[n]] else [])
  }

  /** Exactly the official songs that are not RS1 imports reach `Validate`. */
  lemma {:induction false} OfficialOnlySpec(songs: seq<SongData>)
    ensures forall s :: s in OfficialOnly(songs) <==> s in songs && s.odlc && s.rs1AppId == 0
    ensures |OfficialOnly(songs)| <= |songs|
    decreases |songs|
  {
    if songs != [] {
      var n := |songs| - 1;
      OfficialOnlySpec(songs[..n]);
      assert songs == songs[..n] + [songs[n]];
    }
  }

  /** `Songs`: the number of songs in the dictionary and the number
      `Validate` finds among the official ones. */
  method Songs(library: SongLibrary) returns (lines: seq<string>)
    ensures lines == ["Total Songs: " + IntToString(|library.songs|),
                      "Non-Authentic ODLC: " + IntToString(NonAuthentic(OfficialOnly(library.songs)))]
  {
    var odlc := OfficialOnly(library.songs);
    var nonAuthentic := Validate(odlc);
    lines := ["Total Songs: " + IntToString(|library.songs|), "Non-Authentic ODLC: " + IntToString(nonAuthentic)];
  }
}
