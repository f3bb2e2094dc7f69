/** Reading back what Rocksmith's `WriteSettingsFile` writes. The reader
    skips section headers and keeps one dictionary for the whole file, so
    the file reads back without an exception exactly when no two settings
    share a name, and then every name reads back the text written for its
    setting. */
module RocksmithRoundTrip {
  import opened Wrappers
  import opened Text
  import opened IniCommon
  import opened RocksmithSettings

  /** A name the reader gives back unchanged: no `=` and no line break in
      it, and it does not begin with `[` (the reader would skip the line as
      a header). */
  predicate ReadableName(n: string) {
    (forall i :: 0 <= i < |n| ==> n[i] != '=' && LineChar(n[i])) &&
    (n == [] || n[0] != '[')
  }

  /** The names of the settings, with repetitions. */
  function Names(xs: seq<View>): multiset<string> {
    if xs == [] then multiset{} else Names(xs[..|xs| - 1]) + multiset{xs[|xs| - 1].name}
  }

  /** No name occurs twice. */
  predicate UniqueNames(xs: seq<View>) {
    forall n :: n in Names(xs) ==> Names(xs)[n] <= 1
  }

  /** The entries reading the lines of `xs` stores. */
  function Stored(xs: seq<View>): FlatCache {
    if xs == [] then map[]
    else
      var v := xs[|xs| - 1];
      Stored(xs[..|xs| - 1])[v.name := StrV(Written(v))]
  }

  /** The groups of the sections in `order`, one after another: the
      settings in the order the file lists them. */
  function Concat(order: seq<string>, groups: map<string, seq<View>>): seq<View>
    requires forall s :: s in order ==> s in groups
  {
    if order == [] then []
    else Concat(order[..|order| - 1], groups) + groups[order[|order| - 1]]
  }

  /** The settings in the order the file `Render(vs, false)` lists them. */
  function Grouped(vs: seq<View>): seq<View> {
    Concat(SectionOrder(vs), GroupMap(vs))
  }

  /** How the reader takes one line: blank lines and `[` lines are skipped;
      any other line is split at its first `=` into the exact texts before
      and after it, and one without `=` (a `;` comment too) throws. */
  lemma {:induction false} ClassifyLineSpec(line: string)
    ensures ClassifyLine(line) == Skip <==> |line| == 0 || line[0] == '['
    ensures ClassifyLine(line).KeyLine? <==> |line| > 0 && line[0] != '[' && '=' in line
    ensures ClassifyLine(line).KeyLine? ==>
      line == ClassifyLine(line).name + "=" + ClassifyLine(line).text && '=' !in ClassifyLine(line).name
    ensures |line| > 0 && line[0] != '[' && '=' !in line ==> ClassifyLine(line) == Broken(MissingSeparator(line))
  {
    if |line| == 0 || line[0] == '[' {
      assert ClassifyLine(line) == Skip;
    } else if '=' in line {
      SplitAtFirst(line, '=');
      var eq := IndexOf(line, '=');
      assert ClassifyLine(line) == KeyLine(line[..eq], line[eq + 1..]);
    } else {
      assert IndexOf(line, '=') == -1;
      assert ClassifyLine(line) == Broken(MissingSeparator(line));
    }
  }

  /** Reading two runs of lines is reading the first, then the second. */
  lemma {:induction false} ParseAppend(a: seq<string>, b: seq<string>, st: ParseState)
    ensures Parse(a + b, st) == Parse(b, Parse(a, st))
    decreases |a|
  {
    if a != [] {
      assert (a + b)[0] == a[0] && (a + b)[1..] == a[1..] + b;
      ParseAppend(a[1..], b, Step(st, a[0]));
    } else {
      assert a + b == b;
    }
  }

  /** A `name=value` line with a readable name is a key line for exactly
      that name and that text. */
  lemma {:induction false} EntryLineReads(v: View)
    requires ReadableName(v.name)
    ensures ClassifyLine(EntryLine(v)) == KeyLine(v.name, Written(v))
  {
    var line := EntryLine(v);
    var n := |v.name|;
    assert line[n] == '=';
    assert line[..n] == v.name && line[n + 1..] == Written(v);
    var eq := IndexOf(line, '=');
    assert eq != -1;
    if v.name == [] {
      assert line[0] == '=';
    } else {
      assert line[0] == v.name[0];
    }
  }

  /** Helper: the names of two lists together. */
  lemma {:induction false} NamesAppend(a: seq<View>, b: seq<View>)
    ensures Names(a + b) == Names(a) + Names(b)
    decreases |b|
  {
    if b != [] {
      assert (a + b)[..|a + b| - 1] == a + b[..|b| - 1];
      NamesAppend(a, b[..|b| - 1]);
    } else {
      assert a + b == a;
    }
  }

  /** A name is stored exactly when some setting has it. */
  lemma {:induction false} StoredKeys(xs: seq<View>)
    ensures forall n :: n in Stored(xs) <==> n in Names(xs)
    decreases |xs|
  {
    if xs != [] {
      StoredKeys(xs[..|xs| - 1]);
    }
  }

  /** Every setting's name is among the names. */
  lemma {:induction false} NamesHas(xs: seq<View>, k: int)
    requires 0 <= k < |xs|
    ensures xs[k].name in Names(xs)
    decreases |xs|
  {
    if k < |xs| - 1 {
      NamesHas(xs[..|xs| - 1], k);
    }
  }

  /** With unique names, every setting's name holds the text written for
      that setting. */
  lemma {:induction false} StoredAt(xs: seq<View>, k: int)
    requires UniqueNames(xs) && 0 <= k < |xs|
    ensures Lookup(Stored(xs), xs[k].name) == Some(StrV(Written(xs[k])))
    decreases |xs|
  {
    var init, v := xs[..|xs| - 1], xs[|xs| - 1];
    if k < |xs| - 1 {
      assert UniqueNames(init) by {
        forall n ensures Names(init)[n] <= 1 {
          assert Names(xs)[n] <= 1;
        }
      }
      NamesHas(init, k);
      assert init[k] == xs[k];
      assert Names(xs)[v.name] <= 1;
      assert xs[k].name != v.name;
      StoredAt(init, k);
    }
  }

  /** One more setting keeps the names unique exactly when its name is new. */
  lemma {:induction false} UniqueSnoc(g: seq<View>)
    requires g != []
    ensures var init, v := g[..|g| - 1], g[|g| - 1];
      UniqueNames(g) <==> UniqueNames(init) && v.name !in Names(init)
  {
    var init, v := g[..|g| - 1], g[|g| - 1];
    assert Names(g) == Names(init) + multiset{v.name};
    if UniqueNames(g) {
      forall n | n in Names(init) ensures Names(init)[n] <= 1 {
        assert Names(g)[n] <= 1;
      }
      assert Names(g)[v.name] <= 1;
    }
  }

  /** Reading the lines of a group is reading those of all but its last
      setting, then that setting's line. */
  lemma {:induction false} ParseSnoc(g: seq<View>, st: ParseState)
    requires g != []
    ensures Parse(EntryLines(g), st) == Step(Parse(EntryLines(g[..|g| - 1]), st), EntryLine(g[|g| - 1]))
  {
    var init, v := g[..|g| - 1], g[|g| - 1];
    ParseAppend(EntryLines(init), [EntryLine(v)], st);
    assert Parse([EntryLine(v)], Parse(EntryLines(init), st)) == Step(Parse(EntryLines(init), st), EntryLine(v));
  }

  lemma {:induction false} UnionUpdate(c: FlatCache, m: FlatCache, n: string, x: Value)
    ensures (c + m)[n := x] == c + m[n := x]
  {
  }

  /** The entries of `g`, read from a cache `c` with no exception so far:
      the reading throws exactly when a name repeats or is already cached,
      always with `DuplicateKey`, and otherwise stores every entry of `g`
      over `c`. */
  lemma {:induction false} ParseEntries(g: seq<View>, c: FlatCache)
    requires forall k :: 0 <= k < |g| ==> ReadableName(g[k].name)
    ensures var p := Parse(EntryLines(g), ParseState(c, None));
      && (p.error.None? <==> UniqueNames(g) && forall n :: n in Names(g) ==> n !in c)
      && (p.error.Some? ==> p.error.value.DuplicateKey?)
      && (p.error.None? ==> p.cache == c + Stored(g))
    decreases |g|
  {
    var st := ParseState(c, None);
    if g == [] {
      assert c + map[] == c;
    } else {
      var init, v := g[..|g| - 1], g[|g| - 1];
      ParseEntries(init, c);
      var mid := Parse(EntryLines(init), st);
      ParseSnoc(g, st);
      EntryLineReads(v);
      UniqueSnoc(g);
      if mid.error.None? {
        StoredKeys(init);
        assert v.name in mid.cache <==> v.name in c || v.name in Names(init);
        UnionUpdate(c, Stored(init), v.name, StrV(Written(v)));
      }
    }
  }

  lemma {:induction false} EntryLinesAppend(a: seq<View>, b: seq<View>)
    ensures EntryLines(a + b) == EntryLines(a) + EntryLines(b)
    decreases |b|
  {
    if b != [] {
      assert (a + b)[..|a + b| - 1] == a + b[..|b| - 1];
      EntryLinesAppend(a, b[..|b| - 1]);
    } else {
      assert a + b == a;
    }
  }

  /** Headers are skipped, so reading the blocks of the sections in
      `order` is reading the entry lines of their groups, one after
      another. */
  lemma {:induction false} ParseGroups(order: seq<string>, groups: map<string, seq<View>>, st: ParseState)
    requires forall s :: s in order ==> s in groups
    ensures Parse(RenderGroups(order, groups, false), st) == Parse(EntryLines(Concat(order, groups)), st)
    decreases |order|
  {
    if order != [] {
      var init, s := order[..|order| - 1], order[|order| - 1];
      ParseGroups(init, groups, st);
      var mid := Parse(RenderGroups(init, groups, false), st);
      assert Block(s, groups[s], false) == [Header(s)] + EntryLines(groups[s]);
      ParseAppend(RenderGroups(init, groups, false), Block(s, groups[s], false), st);
      assert Header(s)[0] == '[';
      assert ([Header(s)] + EntryLines(groups[s]))[1..] == EntryLines(groups[s]);
      EntryLinesAppend(Concat(init, groups), groups[s]);
      ParseAppend(EntryLines(Concat(init, groups)), EntryLines(groups[s]), st);
    }
  }

  /** Helper: a section the order does not list does not change what it
      lists. */
  lemma {:induction false} ConcatFrame(order: seq<string>, groups: map<string, seq<View>>, s: string, g: seq<View>)
    requires forall t :: t in order ==> t in groups
    requires s !in order
    ensures Concat(order, groups[s := g]) == Concat(order, groups)
    decreases |order|
  {
    if order != [] {
      ConcatFrame(order[..|order| - 1], groups, s, g);
    }
  }

  lemma {:induction false} NamesSnoc(xs: seq<View>, v: View)
    ensures Names(xs + [v]) == Names(xs) + multiset{v.name}
  {
    assert (xs + [v])[..|xs|] == xs;
  }

  /** Dropping the last of distinct sections leaves distinct sections
      without it. */
  lemma {:induction false} DistinctInit(order: seq<string>)
    requires order != [] && forall i, j :: 0 <= i < j < |order| ==> order[i] != order[j]
    ensures var init := order[..|order| - 1];
      && (forall i, j :: 0 <= i < j < |init| ==> init[i] != init[j])
      && order[|order| - 1] !in init
  {
    var init := order[..|order| - 1];
    assert forall i :: 0 <= i < |init| ==> init[i] == order[i];
  }

  /** One more setting in the group of a listed section: one more
      occurrence of its name in the listing. */
  lemma {:induction false} ConcatInsert(order: seq<string>, groups: map<string, seq<View>>, s: string, v: View)
    requires forall t :: t in order ==> t in groups
    requires s in order && forall i, j :: 0 <= i < j < |order| ==> order[i] != order[j]
    ensures Names(Concat(order, groups[s := groups[s] + [v]])) == Names(Concat(order, groups)) + multiset{v.name}
    decreases |order|
  {
    var init, last := order[..|order| - 1], order[|order| - 1];
    var groups' := groups[s := groups[s] + [v]];
    var before, after := Concat(order, groups), Concat(order, groups');
    if last == s {
      assert after == before + [v] by {
        DistinctInit(order);
        ConcatFrame(init, groups, s, groups[s] + [v]);
      }
      NamesSnoc(before, v);
    } else {
      var a, a', g := Concat(init, groups), Concat(init, groups'), groups[last];
      assert Names(a') == Names(a) + multiset{v.name} by {
        DistinctInit(order);
        ConcatInsert(init, groups, s, v);
      }
      assert after == a' + g && before == a + g;
      NamesAppend(a', g);
      NamesAppend(a, g);
    }
  }

  /** One more setting in the group of a listed section: one more setting
      in the listing. */
  lemma {:induction false} ConcatInsertViews(order: seq<string>, groups: map<string, seq<View>>, s: string, v: View)
    requires forall t :: t in order ==> t in groups
    requires s in order && forall i, j :: 0 <= i < j < |order| ==> order[i] != order[j]
    ensures multiset(Concat(order, groups[s := groups[s] + [v]])) == multiset(Concat(order, groups)) + multiset{v}
    decreases |order|
  {
    var init, last := order[..|order| - 1], order[|order| - 1];
    var groups' := groups[s := groups[s] + [v]];
    var before, after := Concat(order, groups), Concat(order, groups');
    if last == s {
      assert after == before + [v] by {
        DistinctInit(order);
        ConcatFrame(init, groups, s, groups[s] + [v]);
      }
    } else {
      var a, a', g := Concat(init, groups), Concat(init, groups'), groups[last];
      assert multiset(a') == multiset(a) + multiset{v} by {
        DistinctInit(order);
        ConcatInsertViews(init, groups, s, v);
      }
      assert after == a' + g && before == a + g;
    }
  }

  /** Helper: the last setting and the settings before it: as many of each
      setting, and of each name, as the list holds. */
  lemma {:induction false} SnocCounts(vs: seq<View>)
    requires vs != []
    ensures var i := |vs| - 1;
            multiset(vs) == multiset(vs[..i]) + multiset{vs[i]} &&
            Names(vs) == Names(vs[..i]) + multiset{vs[i].name}
  {
    var i := |vs| - 1;
    assert vs == vs[..i] + [vs[i]];
    NamesSnoc(vs[..i], vs[i]);
  }

  /** Helper: a setting whose section is already listed joins that section's group:
      the listing holds one more of it, and one more of its name. */
  lemma {:induction false} GroupedJoin(vs: seq<View>)
    requires vs != [] && vs[|vs| - 1].section in SectionOrder(vs[..|vs| - 1])
    ensures var i := |vs| - 1;
            multiset(Grouped(vs)) == multiset(Grouped(vs[..i])) + multiset{vs[i]} &&
            Names(Grouped(vs)) == Names(Grouped(vs[..i])) + multiset{vs[i].name}
  {
    var i := |vs| - 1;
    var init, v := vs[..i], vs[i];
    var o, m := SectionOrder(init), GroupMap(init);
    assert Grouped(vs) == Concat(o, m[v.section := m[v.section] + [v]]) by {
      assert vs[..i + 1] == vs;
      GroupMapStep(vs, i);
      PrefixStep(vs, i, v.section);
    }
    SectionOrderDistinct(init);
    ConcatInsertViews(o, m, v.section, v);
    ConcatInsert(o, m, v.section, v);
  }

  /** Helper: a setting in a section not yet listed opens a new last group: the
      listing is the old one followed by that setting. */
  lemma {:induction false} GroupedOpen(vs: seq<View>)
    requires vs != [] && vs[|vs| - 1].section !in SectionOrder(vs[..|vs| - 1])
    ensures Grouped(vs) == Grouped(vs[..|vs| - 1]) + [vs[|vs| - 1]]
  {
    var i := |vs| - 1;
    var init, v := vs[..i], vs[i];
    var o, m := SectionOrder(init), GroupMap(init);
    assert Grouped(vs) == Concat(o + [v.section], m[v.section := [v]]) by {
      assert vs[..i + 1] == vs;
      GroupMapStep(vs, i);
      PrefixStep(vs, i, v.section);
    }
    ConcatFrame(o, m, v.section, [v]);
    assert (o + [v.section])[..|o|] == o;
  }

  /** The file lists every setting once: the listing holds the same
      settings, and the same names, as the list. */
  lemma {:induction false} GroupedPermutes(vs: seq<View>)
    ensures multiset(Grouped(vs)) == multiset(vs)
    ensures Names(Grouped(vs)) == Names(vs)
    decreases |vs|
  {
    if vs != [] {
      var i := |vs| - 1;
      GroupedPermutes(vs[..i]);
      SnocCounts(vs);
      if vs[i].section in SectionOrder(vs[..i]) {
        GroupedJoin(vs);
      } else {
        GroupedOpen(vs);
        NamesSnoc(Grouped(vs[..i]), vs[i]);
      }
    }
  }

  /** The round trip: reading the file `WriteSettingsFile` writes for `vs`
      throws exactly when two settings share a name (with `DuplicateKey`,
      whatever their sections); otherwise exactly the names of the settings
      are cached, each with the text written for its setting. */
  lemma {:induction false} RoundTrip(vs: seq<View>)
    requires forall k :: 0 <= k < |vs| ==> ReadableName(vs[k].name) && LineSafe(vs[k])
    ensures var p := Parse(Render(vs, false), StartState);
      && (p.error.None? <==> UniqueNames(vs))
      && (p.error.Some? ==> p.error.value.DuplicateKey?)
      && (p.error.None? ==> forall k :: 0 <= k < |vs| ==> Lookup(p.cache, vs[k].name) == Some(StrV(Written(vs[k]))))
      && (p.error.None? ==> forall n :: n in p.cache <==> n in Names(vs))
  {
    GroupedPermutes(vs);
    ParseGroups(SectionOrder(vs), GroupMap(vs), StartState);
    ReadListing(vs, Grouped(vs));
  }

  /** Reading the entry lines of a listing of the settings `vs` (the same
      settings in any order). */
  lemma {:induction false} ReadListing(vs: seq<View>, xs: seq<View>)
    requires forall k :: 0 <= k < |vs| ==> ReadableName(vs[k].name)
    requires multiset(xs) == multiset(vs) && Names(xs) == Names(vs)
    ensures var p := Parse(EntryLines(xs), StartState);
      && (p.error.None? <==> UniqueNames(vs))
      && (p.error.Some? ==> p.error.value.DuplicateKey?)
      && (p.error.None? ==> forall k :: 0 <= k < |vs| ==> Lookup(p.cache, vs[k].name) == Some(StrV(Written(vs[k]))))
      && (p.error.None? ==> forall n :: n in p.cache <==> n in Names(vs))
  {
    var p := Parse(EntryLines(xs), StartState);
    assert forall k :: 0 <= k < |xs| ==> ReadableName(xs[k].name) by {
      forall k | 0 <= k < |xs| ensures ReadableName(xs[k].name) {
        assert xs[k] in multiset(vs);
      }
    }
    ParseEntries(xs, map[]);
    UnionEmpty(Stored(xs));
    if p.error.None? {
      StoredKeys(xs);
      forall k | 0 <= k < |vs| ensures Lookup(p.cache, vs[k].name) == Some(StrV(Written(vs[k]))) {
        assert vs[k] in multiset(xs);
        var j :| 0 <= j < |xs| && xs[j] == vs[k];
        StoredAt(xs, j);
      }
    }
  }

  lemma {:induction false} UnionEmpty(m: FlatCache)
    ensures map[] + m == m
  {
  }

  /** Unique names, pairwise: no two settings have the same name. */
  lemma {:induction false} UniqueNamesPairwise(xs: seq<View>)
    ensures UniqueNames(xs) <==> forall i, j :: 0 <= i < j < |xs| ==> xs[i].name != xs[j].name
    decreases |xs|
  {
    if xs != [] {
      var init, v := xs[..|xs| - 1], xs[|xs| - 1];
      UniqueNamesPairwise(init);
      UniqueSnoc(xs);
      assert forall i :: 0 <= i < |init| ==> init[i] == xs[i];
      if v.name in Names(init) {
        var i := NameIndex(init, v.name);
        assert xs[i].name == xs[|xs| - 1].name;
      } else {
        forall i | 0 <= i < |init| ensures xs[i].name != v.name {
          NamesHas(init, i);
        }
      }
    }
  }

  /** A position of a name among the settings. */
  lemma {:induction false} NameIndex(xs: seq<View>, n: string) returns (i: int)
    requires n in Names(xs)
    ensures 0 <= i < |xs| && xs[i].name == n
    decreases |xs|
  {
    if n in Names(xs[..|xs| - 1]) {
      i := NameIndex(xs[..|xs| - 1], n);
    } else {
      i := |xs| - 1;
    }
  }

  /** The file is one header per section and one line per setting. */
  lemma {:induction false} RenderLength(vs: seq<View>)
    ensures |Render(vs, false)| == |SectionOrder(vs)| + |vs|
  {
    GroupedPermutes(vs);
    assert |multiset(Grouped(vs))| == |multiset(vs)|;
    RenderGroupsLength(SectionOrder(vs), GroupMap(vs));
  }

  lemma {:induction false} RenderGroupsLength(order: seq<string>, groups: map<string, seq<View>>)
    requires forall s :: s in order ==> s in groups
    ensures |RenderGroups(order, groups, false)| == |order| + |Concat(order, groups)|
    decreases |order|
  {
    if order != [] {
      RenderGroupsLength(order[..|order| - 1], groups);
      EntryLinesLength(groups[order[|order| - 1]]);
    }
  }

  lemma {:induction false} EntryLinesLength(g: seq<View>)
    ensures |EntryLines(g)| == |g|
    decreases |g|
  {
    if g != [] {
      EntryLinesLength(g[..|g| - 1]);
    }
  }

  /** `LoadSettings()` registers 25 settings, section by section: their
      sections, in order of first appearance, are Audio, Renderer.Win32 and
      Net, and each section's settings stand together. */
  lemma {:induction false} RegisteredLayout(vals: seq<Option<Value>>)
    requires |vals| == |Registered|
    ensures |Registered| == 25
    ensures SectionOrder(RegisteredViews(Registered, vals)) == ["Audio", "Renderer.Win32", "Net"]
    ensures Contiguous(RegisteredViews(Registered, vals))
  {
    RegisteredViewSections(vals);
    ThreeRuns(RegisteredViews(Registered, vals));
  }

  /** Helper: ten Audio settings, fourteen Renderer.Win32 settings and one Net
      setting, in that order, form three contiguous sections. */
  lemma {:induction false} ThreeRuns(vs: seq<View>)
    requires |vs| == 25
    requires forall k :: 0 <= k < 10 ==> vs[k].section == "Audio"
    requires forall k :: 10 <= k < 24 ==> vs[k].section == "Renderer.Win32"
    requires vs[24].section == "Net"
    ensures SectionOrder(vs) == ["Audio", "Renderer.Win32", "Net"] && Contiguous(vs)
  {
    assert vs[..0] == [];
    assert SectionOrder(vs[..10]) == ["Audio"] && Contiguous(vs[..10])
      && forall k :: 0 <= k < 10 ==> vs[k].section in ["Audio"] by {
      LayoutStep(vs, 0, 10, [], "Audio");
    }
    assert SectionOrder(vs[..24]) == ["Audio", "Renderer.Win32"] && Contiguous(vs[..24])
      && forall k :: 0 <= k < 24 ==> vs[k].section in ["Audio", "Renderer.Win32"] by {
      LayoutStep(vs, 10, 24, ["Audio"], "Renderer.Win32");
    }
    assert SectionOrder(vs[..25]) == ["Audio", "Renderer.Win32", "Net"] && Contiguous(vs[..25]) by {
      LayoutStep(vs, 24, 25, ["Audio", "Renderer.Win32"], "Net");
    }
    assert vs[..25] == vs;
  }

  /** The sections of the registered views, run by run. */
  lemma {:induction false} RegisteredViewSections(vals: seq<Option<Value>>)
    requires |vals| == |Registered|
    ensures |Registered| == 25
    ensures forall k :: 0 <= k < 10 ==> RegisteredViews(Registered, vals)[k].section == "Audio"
    ensures forall k :: 10 <= k < 24 ==> RegisteredViews(Registered, vals)[k].section == "Renderer.Win32"
    ensures RegisteredViews(Registered, vals)[24].section == "Net"
  {
    RegisteredRuns();
  }

  /** The sections of the registered table, run by run. */
  lemma RegisteredRuns()
    ensures |Registered| == 25
    ensures forall k :: 0 <= k < 10 ==> Registered[k].0 == "Audio"
    ensures forall k :: 10 <= k < 24 ==> Registered[k].0 == "Renderer.Win32"
    ensures Registered[24].0 == "Net"
  {
  }

  /** No two registered settings share a name. */
  lemma RegisteredNamesDistinct()
    ensures forall i, j :: 0 <= i < j < |Registered| ==> Registered[i].1 != Registered[j].1
  {
  }

  /** Every registered name reads back unchanged. */
  lemma RegisteredReadable()
    ensures forall k :: 0 <= k < |Registered| ==> ReadableName(Registered[k].1)
  {
    RegisteredNamesListed();
    ListedReadable0();
    ListedReadable1();
    ListedReadable2();
    ListedReadable3();
    ListedReadable4();
    ListedReadable5();
    ListedReadable6();
  }

  /** The twenty-five names of the Rocksmith.ini table. */
  const ListedNames: set<string> := {
    "EnableMicrophone", "ExclusiveMode", "LatencyBuffer", "ForceDefaultPlaybackDevice",
    "ForceWDM", "ForceDirectXSink", "DumpAudioLog", "MaxOutputBufferSize", "RealToneCableOnly",
    "Win32UltraLowLatencyMode", "ShowGamepadUI", "ScreenWidth", "ScreenHeight", "Fullscreen",
    "VisualQuality", "RenderingWidth", "RenderingHeight", "EnablePostEffects", "EnableShadows",
    "EnableHighResScope", "EnableDepthOfField", "EnablePerPixelLighting", "MsaaSamples",
    "DisableBrowser", "UseProxy"}

  /** Helper: every row's name is one of the twenty-five. */
  lemma RegisteredNamesListed()
    ensures forall k :: 0 <= k < |Registered| ==> Registered[k].1 in ListedNames
  {
  }

  /** Helper: names 0 to 3 of the table read back unchanged. */
  lemma ListedReadable0()
    ensures ReadableName("EnableMicrophone") && ReadableName("ExclusiveMode")
    ensures ReadableName("LatencyBuffer") && ReadableName("ForceDefaultPlaybackDevice")
  {
  }

  /** Helper: names 4 to 7 of the table read back unchanged. */
  lemma ListedReadable1()
    ensures ReadableName("ForceWDM") && ReadableName("ForceDirectXSink")
    ensures ReadableName("DumpAudioLog") && ReadableName("MaxOutputBufferSize")
  {
  }

  /** Helper: names 8 to 11 of the table read back unchanged. */
  lemma ListedReadable2()
    ensures ReadableName("RealToneCableOnly") && ReadableName("Win32UltraLowLatencyMode")
    ensures ReadableName("ShowGamepadUI") && ReadableName("ScreenWidth")
  {
  }

  /** Helper: names 12 to 15 of the table read back unchanged. */
  lemma ListedReadable3()
    ensures ReadableName("ScreenHeight") && ReadableName("Fullscreen")
    ensures ReadableName("VisualQuality") && ReadableName("RenderingWidth")
  {
  }

  /** Helper: names 16 to 19 of the table read back unchanged. */
  lemma ListedReadable4()
    ensures ReadableName("RenderingHeight") && ReadableName("EnablePostEffects")
    ensures ReadableName("EnableShadows") && ReadableName("EnableHighResScope")
  {
  }

  /** Helper: names 20 to 23 of the table read back unchanged. */
  lemma ListedReadable5()
    ensures ReadableName("EnableDepthOfField") && ReadableName("EnablePerPixelLighting")
    ensures ReadableName("MsaaSamples") && ReadableName("DisableBrowser")
  {
  }

  /** Helper: names 24 to 24 of the table read back unchanged. */
  lemma ListedReadable6()
    ensures ReadableName("UseProxy")
  {
  }

  /** Helper: no registered section or default breaks a line. */
  lemma RegisteredTableOneLine()
    ensures forall k :: 0 <= k < |Registered| ==> OneLine(Registered[k].0) && OneLine(Display(Registered[k].2))
  {
    RegisteredColumnsListed();
    IntOneLine(0);
    IntOneLine(1);
    IntOneLine(2);
    IntOneLine(4);
    assert OneLine("Audio") && OneLine("Renderer.Win32") && OneLine("Net") && OneLine("");
  }

  /** Helper: the sections and defaults the table uses. */
  lemma RegisteredColumnsListed()
    ensures forall k :: 0 <= k < |Registered| ==>
      Registered[k].0 in {"Audio", "Renderer.Win32", "Net"} &&
      Registered[k].2 in {IntV(0), IntV(1), IntV(2), IntV(4), StrV("")}
  {
  }

  /** The file `Load` writes reads back: whatever values the registered
      settings hold, as long as none of them breaks a line, reading it
      throws nothing and every registered name
      reads back the text written for its setting. */
  lemma {:induction false} RegisteredFileReads(vals: seq<Option<Value>>)
    requires |vals| == |Registered|
    requires forall k :: 0 <= k < |vals| && vals[k].Some? ==> OneLine(Display(vals[k].value))
    ensures var vs := RegisteredViews(Registered, vals);
      var p := Parse(Render(vs, false), StartState);
      && p.error.None?
      && forall k :: 0 <= k < |vs| ==> Lookup(p.cache, vs[k].name) == Some(StrV(Written(vs[k])))
  {
    var vs := RegisteredViews(Registered, vals);
    assert forall k :: 0 <= k < |vs| ==> LineSafe(vs[k]) by {
      RegisteredTableOneLine();
      RegisteredLineSafe(Registered, vals);
    }
    RegisteredReadable();
    RegisteredNamesDistinct();
    UniqueNamesPairwise(vs);
    RoundTrip(vs);
  }
}
