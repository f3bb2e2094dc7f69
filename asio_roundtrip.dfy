/** Reading back what RS_ASIO's `WriteSettingsFile` writes: the reading loop
    of `ReadPreviousSetting` run over `Render(vs, asio)` throws nothing and
    caches, for every section and name, the text written for the last
    setting with that section and name. */
module AsioRoundTrip {
  import opened Wrappers
  import opened Text
  import opened IniCommon
  import opened AsioSettings

  /** A name the reader gives back unchanged: no `=` and no line break in
      it, and it does not begin with `;` or `[` (the reader would take the
      line for a comment or a section header). */
  predicate ReadableName(n: string) {
    (forall i :: 0 <= i < |n| ==> n[i] != '=' && LineChar(n[i])) &&
    (n == [] || (n[0] != ';' && n[0] != '['))
  }

  /** The value the cache should hold for section `s` and name `n` after
      reading the file written for `vs`: the text of the last setting with
      both. */
  function LastStored(vs: seq<View>, s: string, n: string): Option<Value> {
    if vs == [] then None
    else
      var v := vs[|vs| - 1];
      if v.section == s && v.name == n then Some(StrV(Written(v))) else LastStored(vs[..|vs| - 1], s, n)
  }

  /** The same, within one group, by name only. */
  function LastNamed(g: seq<View>, n: string): Option<Value> {
    if g == [] then None
    else
      var v := g[|g| - 1];
      if v.name == n then Some(StrV(Written(v))) else LastNamed(g[..|g| - 1], n)
  }

  /** The entries the reader stores for the lines of `g` under section `s`. */
  function PutAll(c: Cache, s: string, g: seq<View>): Cache {
    if g == [] then c
    else
      var v := g[|g| - 1];
      Put(PutAll(c, s, g[..|g| - 1]), s, v.name, StrV(Written(v)))
  }

  /** How the reader takes one line: blank lines and `;` comments are
      skipped; a `[` line of two or more characters names the section
      between its first and last characters (a lone `[` throws); any other
      line is split at its first `=` into the exact texts before and after
      it, and a line without `=` throws. */
  lemma {:induction false} ClassifyLineSpec(line: string)
    ensures ClassifyLine(line) == Skip <==> |line| == 0 || line[0] == ';'
    ensures |line| > 0 && line[0] == '[' ==>
      ClassifyLine(line) == if |line| >= 2 then SectionLine(line[1..|line| - 1]) else Broken(BadSectionHeader(line))
    ensures ClassifyLine(line).KeyLine? <==> |line| > 0 && line[0] != ';' && line[0] != '[' && '=' in line
    ensures ClassifyLine(line).KeyLine? ==>
      line == ClassifyLine(line).name + "=" + ClassifyLine(line).text && '=' !in ClassifyLine(line).name
    ensures |line| > 0 && line[0] != ';' && line[0] != '[' && '=' !in line ==>
      ClassifyLine(line) == Broken(MissingSeparator(line))
  {
    if |line| == 0 || line[0] == ';' {
      assert ClassifyLine(line) == Skip;
    } else if line[0] == '[' {
      assert !ClassifyLine(line).KeyLine? && ClassifyLine(line) != Skip;
    } else if '=' in line {
      SplitAtFirst(line, '=');
      var eq := IndexOf(line, '=');
      assert ClassifyLine(line) == KeyLine(line[..eq], line[eq + 1..]);
    } else {
      assert IndexOf(line, '=') == -1;
      assert ClassifyLine(line) == Broken(MissingSeparator(line));
    }
  }

  /** An entry stored for a section and name replaces any earlier one for
      both (the last of repeated names wins) and leaves every other entry. */
  lemma {:induction false} PutLookup(c: Cache, s: string, n: string, v: Value, t: string, m: string)
    ensures Lookup(Put(c, s, n, v), t, m) == if t == s && m == n then Some(v) else Lookup(c, t, m)
  {
  }

  /** After reading the file, the default is stored under the setting's
      section exactly when no section caches its name, and the cache is not
      empty afterwards, so the read that follows takes the cached branch. */
  lemma {:induction false} InsertDefaultSpec(c: Cache, section: string, name: string, default: Value)
    ensures |InsertDefault(c, section, name, default)| > 0
    ensures NameAnywhere(c, name) ==> InsertDefault(c, section, name, default) == c
    ensures !NameAnywhere(c, name) ==> Lookup(InsertDefault(c, section, name, default), section, name) == Some(default)
  {
    if NameAnywhere(c, name) {
      var s :| s in c && name in c[s];
      assert s in c.Keys;
    } else {
      assert section in InsertDefault(c, section, name, default).Keys;
    }
  }

  /** With a non-empty cache that lacks the section, the default goes into
      a new dictionary keyed by the setting's name, and the read of the
      section then throws; when a section of that name already exists, the
      insertion itself throws. */
  lemma {:induction false} CachedReadMissingSection(c: Cache, section: string, name: string, default: Value)
    requires |c| > 0 && section !in c
    ensures name in c ==> ReadSpec(c, true, StartState, section, name, default) == (c, Failure(DuplicateKey(name)))
    ensures name !in c && name != section ==>
      ReadSpec(c, true, StartState, section, name, default) == (c[name := map[name := default]], Failure(KeyNotFound(section)))
  {
  }

  /** The missing-section path on the registered settings: once `[Config]`
      alone is cached, reading `Asio.Output`/`Driver` caches the default under
      section `Driver` and throws. */
  lemma MissingSectionExample()
    ensures var c: Cache := map["Config" := map["EnableAsio" := StrV("1")]];
      ReadSpec(c, true, StartState, "Asio.Output", "Driver", StrV("")) ==
        (c["Driver" := map["Driver" := StrV("")]], Failure(KeyNotFound("Asio.Output")))
  {
    var c: Cache := map["Config" := map["EnableAsio" := StrV("1")]];
    assert |c| == 1;
    assert "Asio.Output" != "Config" && "Driver" != "Config" && "Driver" != "Asio.Output";
    CachedReadMissingSection(c, "Asio.Output", "Driver", StrV(""));
  }

  /** Reading two runs of lines is reading the first, then the second. */
  lemma {:induction false} ParseAppend(a: seq<string>, b: seq<string>, st: ParseState)
    ensures Parse(a + b, st) == Parse(b, Parse(a, st))
    decreases |a|
  {
    if a != [] {
      assert (a + b)[0] == a[0] && (a + b)[1..] == a[1..] + b;
      ParseAppend(a[1..], b, Step(st, a[0]));
    } else {
      assert a + b == b;
    }
  }

  /** A `name=value` line with a readable name is a key line for exactly
      that name and that text. */
  lemma {:induction false} EntryLineReads(v: View)
    requires ReadableName(v.name)
    ensures ClassifyLine(EntryLine(v)) == KeyLine(v.name, Written(v))
  {
    var line := EntryLine(v);
    var n := |v.name|;
    assert line[n] == '=';
    assert line[..n] == v.name && line[n + 1..] == Written(v);
    var eq := IndexOf(line, '=');
    assert eq != -1;
    if v.name == [] {
      assert line[0] == '=';
    } else {
      assert line[0] == v.name[0];
    }
  }

  /** A header line names its section. */
  lemma {:induction false} HeaderReads(s: string)
    ensures ClassifyLine(Header(s)) == SectionLine(s)
  {
    var h := Header(s);
    assert h[0] == '[' && h[1..|h| - 1] == s;
  }

  /** The lines of a group, read under section `s`, store its entries. */
  lemma {:induction false} ParseEntries(g: seq<View>, st: ParseState)
    requires st.error.None?
    requires forall k :: 0 <= k < |g| ==> ReadableName(g[k].name)
    ensures Parse(EntryLines(g), st) == st.(cache := PutAll(st.cache, st.section, g))
    decreases |g|
  {
    if g != [] {
      var init, v := g[..|g| - 1], g[|g| - 1];
      ParseEntries(init, st);
      ParseAppend(EntryLines(init), [EntryLine(v)], st);
      EntryLineReads(v);
    }
  }

  /** Lines the reader skips change nothing. */
  lemma {:induction false} ParseSkipped(lines: seq<string>, st: ParseState)
    requires forall k :: 0 <= k < |lines| ==> ClassifyLine(lines[k]) == Skip
    ensures Parse(lines, st) == st
    decreases |lines|
  {
    if lines != [] {
      assert forall k :: 0 <= k < |lines| - 1 ==> lines[1..][k] == lines[k + 1];
      ParseSkipped(lines[1..], st);
    }
  }

  /** The comment block is skipped. */
  lemma {:induction false} ParseComments(st: ParseState)
    ensures Parse(AsioComments, st) == st
  {
    forall k | 0 <= k < |AsioComments| ensures ClassifyLine(AsioComments[k]) == Skip {
      assert AsioComments[k][0] == ';';
    }
    ParseSkipped(AsioComments, st);
  }

  /** One section's block: the header sets the section, the comments are
      skipped, and the entries are stored under it. */
  lemma {:induction false} ParseBlock(s: string, g: seq<View>, asio: bool, st: ParseState)
    requires st.error.None?
    requires forall k :: 0 <= k < |g| ==> ReadableName(g[k].name)
    ensures Parse(Block(s, g, asio), st) == ParseState(s, PutAll(st.cache, s, g), None)
  {
    var comments := if asio && s == "Asio" && |g| > 0 then AsioComments else [];
    var st1 := Step(st, Header(s));
    HeaderReads(s);
    assert st1 == st.(section := s);
    assert Parse([Header(s)], st) == st1;
    ParseAppend([Header(s)], comments, st);
    assert Parse(comments, st1) == st1 by {
      if comments != [] {
        ParseComments(st1);
      }
    }
    ParseAppend([Header(s)] + comments, EntryLines(g), st);
    ParseEntries(g, st1);
  }

  /** Looking up an entry after storing a group. */
  lemma {:induction false} PutAllLookup(c: Cache, s: string, g: seq<View>, t: string, n: string)
    ensures Lookup(PutAll(c, s, g), t, n) == if t == s && LastNamed(g, n).Some? then LastNamed(g, n) else Lookup(c, t, n)
    decreases |g|
  {
    if g != [] {
      PutAllLookup(c, s, g[..|g| - 1], t, n);
    }
  }

  /** The group of section `t` holds, by name, what the whole list holds
      for section `t`. */
  lemma {:induction false} GroupLastNamed(vs: seq<View>, t: string, n: string)
    ensures LastNamed(Group(vs, t), n) == LastStored(vs, t, n)
    decreases |vs|
  {
    if vs != [] {
      var init, v := vs[..|vs| - 1], vs[|vs| - 1];
      GroupLastNamed(init, t, n);
      var g := Group(init, t);
      if v.section == t {
        assert (g + [v])[..|g|] == g;
      } else {
        assert Group(vs, t) == g;
      }
    }
  }

  /** Reading the blocks of distinct sections, in order: each section holds
      what its group stores, every other section what it held before. */
  lemma {:induction false} ParseGroups(order: seq<string>, groups: map<string, seq<View>>, asio: bool, st: ParseState,
                                       t: string, n: string)
    requires st.error.None?
    requires forall s :: s in order ==> s in groups
    requires forall i, j :: 0 <= i < j < |order| ==> order[i] != order[j]
    requires forall s, k :: s in groups && 0 <= k < |groups[s]| ==> ReadableName(groups[s][k].name)
    ensures Parse(RenderGroups(order, groups, asio), st).error.None?
    ensures Lookup(Parse(RenderGroups(order, groups, asio), st).cache, t, n) ==
      if t in order && LastNamed(groups[t], n).Some? then LastNamed(groups[t], n) else Lookup(st.cache, t, n)
    decreases |order|
  {
    if order != [] {
      var init, s := order[..|order| - 1], order[|order| - 1];
      assert forall i, j :: 0 <= i < j < |init| ==> init[i] != init[j] by {
        assert forall i :: 0 <= i < |init| ==> init[i] == order[i];
      }
      ParseGroups(init, groups, asio, st, t, n);
      var mid := Parse(RenderGroups(init, groups, asio), st);
      ParseAppend(RenderGroups(init, groups, asio), Block(s, groups[s], asio), st);
      ParseBlock(s, groups[s], asio, mid);
      PutAllLookup(mid.cache, s, groups[s], t, n);
    }
  }

  /** The round trip: reading the file `WriteSettingsFile` writes for `vs`
      throws nothing, and every section and name reads back the text
      written for the last setting with both (or nothing, when none has
      them). */
  lemma {:induction false} RoundTrip(vs: seq<View>, asio: bool, s: string, n: string)
    requires forall k :: 0 <= k < |vs| ==> ReadableName(vs[k].name) && LineSafe(vs[k])
    ensures Parse(Render(vs, asio), StartState).error.None?
    ensures Lookup(Parse(Render(vs, asio), StartState).cache, s, n) == LastStored(vs, s, n)
  {
    var order: seq<string>, groups: map<string, seq<View>> := SectionOrder(vs), GroupMap(vs);
    SectionOrderDistinct(vs);
    forall t: string, k: int | t in groups && 0 <= k < |groups[t]| ensures ReadableName(groups[t][k].name) {
      GroupMembers(vs, t, k);
    }
    ParseGroups(order, groups, asio, StartState, s, n);
    GroupLastNamed(vs, s, n);
    if s !in order {
      SectionOrderMembers(vs);
      NoSectionNothingStored(vs, s, n);
    }
  }

  /** Every setting of a group is a setting of the list. */
  lemma {:induction false} GroupMembers(vs: seq<View>, t: string, k: int)
    requires 0 <= k < |Group(vs, t)|
    ensures exists j :: 0 <= j < |vs| && vs[j] == Group(vs, t)[k]
    decreases |vs|
  {
    var init := vs[..|vs| - 1];
    if k < |Group(init, t)| {
      GroupMembers(init, t, k);
      var j :| 0 <= j < |init| && init[j] == Group(init, t)[k];
      assert vs[j] == init[j];
    } else {
      assert vs[|vs| - 1] == Group(vs, t)[k];
    }
  }

  /** A section no setting has stores nothing. */
  lemma {:induction false} NoSectionNothingStored(vs: seq<View>, s: string, n: string)
    requires forall k :: 0 <= k < |vs| ==> vs[k].section != s
    ensures LastStored(vs, s, n) == None
    decreases |vs|
  {
    if vs != [] {
      NoSectionNothingStored(vs[..|vs| - 1], s, n);
    }
  }

  /** With no two settings sharing both section and name, each setting's
      section and name hold the text written for it. */
  lemma {:induction false} LastStoredAt(vs: seq<View>, k: int)
    requires 0 <= k < |vs|
    requires forall i, j :: 0 <= i < j < |vs| ==> (vs[i].section, vs[i].name) != (vs[j].section, vs[j].name)
    ensures LastStored(vs, vs[k].section, vs[k].name) == Some(StrV(Written(vs[k])))
    decreases |vs|
  {
    var init := vs[..|vs| - 1];
    if k < |vs| - 1 {
      assert forall i :: 0 <= i < |init| ==> init[i] == vs[i];
      LastStoredAt(init, k);
    }
  }

  /** The lines of a file that begin with `c`, in order: the comments for
      `;`, the section headers for `[`. */
  function Marked(lines: seq<string>, c: char): seq<string> {
    if lines == [] then []
    else
      var l := lines[|lines| - 1];
      Marked(lines[..|lines| - 1], c) + (if |l| > 0 && l[0] == c then [l] else [])
  }

  lemma {:induction false} MarkedAppend(a: seq<string>, b: seq<string>, c: char)
    ensures Marked(a + b, c) == Marked(a, c) + Marked(b, c)
    decreases |b|
  {
    if b == [] {
      assert a + b == a;
    } else {
      assert (a + b)[..|a + b| - 1] == a + b[..|b| - 1];
      MarkedAppend(a, b[..|b| - 1], c);
    }
  }

  lemma {:induction false} MarkedOne(l: string, c: char)
    ensures Marked([l], c) == if |l| > 0 && l[0] == c then [l] else []
  {
    assert [l][..0] == [];
  }

  lemma {:induction false} EntryLinesUnmarked(g: seq<View>, c: char)
    requires c == ';' || c == '['
    requires forall k :: 0 <= k < |g| ==> ReadableName(g[k].name)
    ensures Marked(EntryLines(g), c) == []
    decreases |g|
  {
    if g != [] {
      var v := g[|g| - 1];
      EntryLinesUnmarked(g[..|g| - 1], c);
      MarkedAppend(EntryLines(g[..|g| - 1]), [EntryLine(v)], c);
      assert EntryLine(v)[0] == if v.name == [] then '=' else v.name[0];
      MarkedOne(EntryLine(v), c);
    }
  }

  /** The comment block is four comment lines and no header. */
  lemma {:induction false} CommentsMarked(c: char)
    requires c == ';' || c == '['
    ensures Marked(AsioComments, c) == if c == ';' then AsioComments else []
  {
    var cs := AsioComments;
    assert cs == [cs[0]] + [cs[1]] + [cs[2]] + [cs[3]];
    MarkedAppend([cs[0]] + [cs[1]] + [cs[2]], [cs[3]], c);
    MarkedAppend([cs[0]] + [cs[1]], [cs[2]], c);
    MarkedAppend([cs[0]], [cs[1]], c);
    MarkedOne(cs[0], c);
    MarkedOne(cs[1], c);
    MarkedOne(cs[2], c);
    MarkedOne(cs[3], c);
  }

  /** A section's lines: one header, and the comment block when, and only
      when, the section is RS_ASIO's `[Asio]` and has a setting. */
  lemma {:induction false} BlockMarked(s: string, g: seq<View>, asio: bool)
    requires forall k :: 0 <= k < |g| ==> ReadableName(g[k].name)
    ensures Marked(Block(s, g, asio), ';') == if asio && s == "Asio" && |g| > 0 then AsioComments else []
    ensures Marked(Block(s, g, asio), '[') == [Header(s)]
  {
    var comments := if asio && s == "Asio" && |g| > 0 then AsioComments else [];
    forall c | c == ';' || c == '['
      ensures Marked(Block(s, g, asio), c) == Marked([Header(s)], c) + Marked(comments, c)
    {
      MarkedAppend([Header(s)] + comments, EntryLines(g), c);
      MarkedAppend([Header(s)], comments, c);
      EntryLinesUnmarked(g, c);
    }
    MarkedOne(Header(s), ';');
    MarkedOne(Header(s), '[');
    CommentsMarked(';');
    CommentsMarked('[');
  }

  /** The header line of each section of `order`, in order. */
  function Headers(order: seq<string>): seq<string> {
    if order == [] then [] else Headers(order[..|order| - 1]) + [Header(order[|order| - 1])]
  }

  lemma {:induction false} RenderGroupsHeaders(order: seq<string>, groups: map<string, seq<View>>, asio: bool)
    requires forall s :: s in order ==> s in groups
    requires forall s, k :: s in groups && 0 <= k < |groups[s]| ==> ReadableName(groups[s][k].name)
    ensures Marked(RenderGroups(order, groups, asio), '[') == Headers(order)
    decreases |order|
  {
    if order != [] {
      var init, last := order[..|order| - 1], order[|order| - 1];
      RenderGroupsHeaders(init, groups, asio);
      MarkedAppend(RenderGroups(init, groups, asio), Block(last, groups[last], asio), '[');
      BlockMarked(last, groups[last], asio);
    }
  }

  lemma {:induction false} RenderGroupsComments(order: seq<string>, groups: map<string, seq<View>>, asio: bool)
    requires forall s :: s in order ==> s in groups
    requires forall i, j :: 0 <= i < j < |order| ==> order[i] != order[j]
    requires forall s, k :: s in groups && 0 <= k < |groups[s]| ==> ReadableName(groups[s][k].name)
    ensures Marked(RenderGroups(order, groups, asio), ';') ==
      if asio && "Asio" in order && |groups["Asio"]| > 0 then AsioComments else []
    decreases |order|
  {
    if order != [] {
      var init, last := order[..|order| - 1], order[|order| - 1];
      var rest := Marked(RenderGroups(init, groups, asio), ';');
      var here := Marked(Block(last, groups[last], asio), ';');
      assert Marked(RenderGroups(order, groups, asio), ';') == rest + here by {
        MarkedAppend(RenderGroups(init, groups, asio), Block(last, groups[last], asio), ';');
      }
      assert rest == if asio && "Asio" in init && |groups["Asio"]| > 0 then AsioComments else [] by {
        assert forall i, j :: 0 <= i < j < |init| ==> init[i] != init[j];
        RenderGroupsComments(init, groups, asio);
      }
      assert here == if asio && last == "Asio" && |groups[last]| > 0 then AsioComments else [] by {
        BlockMarked(last, groups[last], asio);
      }
      assert last !in init by {
        forall i | 0 <= i < |init|
          ensures init[i] != last
        {
          assert init[i] == order[i];
        }
      }
      assert "Asio" in order <==> "Asio" in init || last == "Asio" by {
        assert order == init + [last];
      }
      if last == "Asio" {
        assert rest == [];
      } else {
        assert here == [];
      }
    }
  }

  /** Helper: every grouped setting has a readable name. */
  lemma {:induction false} GroupsReadable(vs: seq<View>)
    requires forall k :: 0 <= k < |vs| ==> ReadableName(vs[k].name)
    ensures forall s, k :: s in GroupMap(vs) && 0 <= k < |GroupMap(vs)[s]| ==> ReadableName(GroupMap(vs)[s][k].name)
  {
    forall s: string, k: int | s in GroupMap(vs) && 0 <= k < |GroupMap(vs)[s]|
      ensures ReadableName(GroupMap(vs)[s][k].name)
    {
      GroupMembers(vs, s, k);
    }
  }

  /** A section has a non-empty group exactly when some setting is in it. */
  lemma {:induction false} HasSection(vs: seq<View>, s: string)
    ensures (s in SectionOrder(vs) && |GroupMap(vs)[s]| > 0) <==> exists k :: 0 <= k < |vs| && vs[k].section == s
  {
    SectionOrderMembers(vs);
    GroupSpec(vs, s);
  }

  /** The file `WriteSettingsFile` writes has one header per section, in
      order of first appearance, and no other line beginning with `[`. */
  lemma {:induction false} RenderHeaders(vs: seq<View>, asio: bool)
    requires forall k :: 0 <= k < |vs| ==> ReadableName(vs[k].name)
    ensures Marked(Render(vs, asio), '[') == Headers(SectionOrder(vs))
  {
    GroupsReadable(vs);
    RenderGroupsHeaders(SectionOrder(vs), GroupMap(vs), asio);
  }

  /** The file carries the four comment lines exactly once when it is
      RS_ASIO.ini and some setting is in `[Asio]`, and no comment line
      otherwise. */
  lemma {:induction false} RenderComments(vs: seq<View>, asio: bool)
    requires forall k :: 0 <= k < |vs| ==> ReadableName(vs[k].name)
    ensures Marked(Render(vs, asio), ';') ==
      if asio && exists k :: 0 <= k < |vs| && vs[k].section == "Asio" then AsioComments else []
  {
    GroupsReadable(vs);
    SectionOrderDistinct(vs);
    RenderGroupsComments(SectionOrder(vs), GroupMap(vs), asio);
    HasSection(vs, "Asio");
  }

  /** No two registered settings share both section and name. */
  lemma RegisteredKeysDistinct()
    ensures forall i, j :: 0 <= i < j < |Registered| ==>
      (Registered[i].0, Registered[i].1) != (Registered[j].0, Registered[j].1)
  {
  }

  /** `LoadSettings()` registers 26 settings, section by section: their
      sections, in order of first appearance, are Config, Asio, Asio.Output,
      Asio.Input.0, Asio.Input.1 and Asio.Input.Mic, and each section's
      settings stand together. */
  lemma {:induction false} RegisteredLayout(vals: seq<Option<Value>>)
    requires |vals| == |Registered|
    ensures |Registered| == 26
    ensures SectionOrder(RegisteredViews(Registered, vals)) ==
      ["Config", "Asio", "Asio.Output", "Asio.Input.0", "Asio.Input.1", "Asio.Input.Mic"]
    ensures Contiguous(RegisteredViews(Registered, vals))
  {
    RegisteredPrefix(vals, 6);
    assert RegisteredViews(Registered, vals)[..26] == RegisteredViews(Registered, vals);
  }

  /** Where each section's run of the registered table ends. */
  const Cuts: seq<int> := [0, 3, 5, 11, 16, 21, 26]

  const RegisteredSections: seq<string> :=
    ["Config", "Asio", "Asio.Output", "Asio.Input.0", "Asio.Input.1", "Asio.Input.Mic"]

  /** The first `b` runs of the registered table. */
  lemma {:induction false} RegisteredPrefix(vals: seq<Option<Value>>, b: nat)
    requires |vals| == |Registered| && b <= 6
    ensures var vs := RegisteredViews(Registered, vals);
      && SectionOrder(vs[..Cuts[b]]) == RegisteredSections[..b]
      && Contiguous(vs[..Cuts[b]])
      && forall k :: 0 <= k < Cuts[b] ==> vs[k].section in RegisteredSections[..b]
  {
    var vs := RegisteredViews(Registered, vals);
    if b == 0 {
      assert vs[..0] == [];
    } else {
      RegisteredPrefix(vals, b - 1);
      var seen, sec := RegisteredSections[..b - 1], RegisteredSections[b - 1];
      assert RegisteredSections[..b] == seen + [sec];
      assert sec !in seen by {
        RegisteredFresh(b);
      }
      assert forall k :: Cuts[b - 1] <= k < Cuts[b] ==> vs[k].section == sec by {
        RegisteredRun(vals, b);
      }
      LayoutStep(vs, Cuts[b - 1], Cuts[b], seen, sec);
    }
  }

  /** Each section of the table is new when its run starts. */
  lemma {:induction false} RegisteredFresh(b: nat)
    requires 1 <= b <= 6
    ensures RegisteredSections[b - 1] !in RegisteredSections[..b - 1]
  {
    var seen := RegisteredSections[..b - 1];
    forall i | 0 <= i < |seen|
      ensures seen[i] != RegisteredSections[b - 1]
    {
      assert seen[i] == RegisteredSections[i];
      assert RegisteredSections[i][|RegisteredSections[i]| - 1] != RegisteredSections[b - 1][|RegisteredSections[b - 1]| - 1]
        || |RegisteredSections[i]| != |RegisteredSections[b - 1]|;
    }
  }

  /** The settings between two cuts all belong to one section. */
  lemma {:induction false} RegisteredRun(vals: seq<Option<Value>>, b: nat)
    requires |vals| == |Registered| && 1 <= b <= 6
    ensures forall k :: Cuts[b - 1] <= k < Cuts[b] ==>
      RegisteredViews(Registered, vals)[k].section == RegisteredSections[b - 1]
  {
    var vs := RegisteredViews(Registered, vals);
    RegisteredRuns();
    forall k | Cuts[b - 1] <= k < Cuts[b]
      ensures vs[k].section == RegisteredSections[b - 1]
    {
      assert vs[k].section == Registered[k].0;
    }
  }

  /** The sections of the registered table, run by run. */
  lemma RegisteredRuns()
    ensures |Registered| == 26
    ensures forall k :: 0 <= k < 3 ==> Registered[k].0 == "Config"
    ensures forall k :: 3 <= k < 5 ==> Registered[k].0 == "Asio"
    ensures forall k :: 5 <= k < 11 ==> Registered[k].0 == "Asio.Output"
    ensures forall k :: 11 <= k < 16 ==> Registered[k].0 == "Asio.Input.0"
    ensures forall k :: 16 <= k < 21 ==> Registered[k].0 == "Asio.Input.1"
    ensures forall k :: 21 <= k < 26 ==> Registered[k].0 == "Asio.Input.Mic"
  {
  }

  /** Every registered name reads back unchanged. */
  lemma RegisteredReadable()
    ensures forall k :: 0 <= k < |Registered| ==> ReadableName(Registered[k].1)
  {
    RegisteredNamesListed();
    ListedReadable0();
    ListedReadable1();
    ListedReadable2();
  }

  /** The twelve distinct names of the RS_ASIO.ini table. */
  const ListedNames: set<string> := {
    "EnableWasapiOutputs", "EnableWasapiInputs", "EnableAsio", "BufferSizeMode",
    "CustomBufferSize", "Driver", "BaseChannel", "AltBaseChannel",
    "EnableSoftwareEndpointVolumeControl", "EnableSoftwareMasterVolumeControl",
    "SoftwareMasterVolumePercent", "Channel"}

  /** Helper: every row's name is one of the twelve. */
  lemma RegisteredNamesListed()
    ensures forall k :: 0 <= k < |Registered| ==> Registered[k].1 in ListedNames
  {
  }

  /** Helper: the first four names read back unchanged. */
  lemma ListedReadable0()
    ensures ReadableName("EnableWasapiOutputs") && ReadableName("EnableWasapiInputs")
    ensures ReadableName("EnableAsio") && ReadableName("BufferSizeMode")
  {
  }

  /** Helper: the next four names read back unchanged. */
  lemma ListedReadable1()
    ensures ReadableName("CustomBufferSize") && ReadableName("Driver")
    ensures ReadableName("BaseChannel") && ReadableName("AltBaseChannel")
  {
  }

  /** Helper: the last four names read back unchanged. */
  lemma ListedReadable2()
    ensures ReadableName("EnableSoftwareEndpointVolumeControl")
    ensures ReadableName("EnableSoftwareMasterVolumeControl")
    ensures ReadableName("SoftwareMasterVolumePercent") && ReadableName("Channel")
  {
  }

  /** Helper: no registered section or default breaks a line. */
  lemma RegisteredTableOneLine()
    ensures forall k :: 0 <= k < |Registered| ==> OneLine(Registered[k].0) && OneLine(Display(Registered[k].2))
  {
    RegisteredColumnsListed();
    IntOneLine(0);
    IntOneLine(1);
    IntOneLine(100);
    assert OneLine("Config") && OneLine("Asio") && OneLine("Asio.Output");
    assert OneLine("Asio.Input.0") && OneLine("Asio.Input.1") && OneLine("Asio.Input.Mic");
    assert OneLine("driver") && OneLine("");
  }

  /** Helper: the sections and defaults the table uses. */
  lemma RegisteredColumnsListed()
    ensures forall k :: 0 <= k < |Registered| ==>
      Registered[k].0 in {"Config", "Asio", "Asio.Output", "Asio.Input.0", "Asio.Input.1", "Asio.Input.Mic"} &&
      Registered[k].2 in {IntV(0), IntV(1), IntV(100), StrV("driver"), StrV("")}
  {
  }

  /** The file `Load` writes reads back: whatever values the registered
      settings hold, as long as none of them breaks a line, reading it
      throws nothing and every registered section
      and name reads back the text written for its setting. */
  lemma {:induction false} RegisteredFileReads(vals: seq<Option<Value>>)
    requires |vals| == |Registered|
    requires forall k :: 0 <= k < |vals| && vals[k].Some? ==> OneLine(Display(vals[k].value))
    ensures var vs := RegisteredViews(Registered, vals);
      var p := Parse(Render(vs, true), StartState);
      && p.error.None?
      && forall k :: 0 <= k < |vs| ==> Lookup(p.cache, vs[k].section, vs[k].name) == Some(StrV(Written(vs[k])))
  {
    var vs := RegisteredViews(Registered, vals);
    assert forall k :: 0 <= k < |vs| ==> LineSafe(vs[k]) by {
      RegisteredTableOneLine();
      RegisteredLineSafe(Registered, vals);
    }
    RegisteredReadable();
    RegisteredKeysDistinct();
    forall k | 0 <= k < |vs|
      ensures Lookup(Parse(Render(vs, true), StartState).cache, vs[k].section, vs[k].name) == Some(StrV(Written(vs[k])))
    {
      RoundTrip(vs, true, vs[k].section, vs[k].name);
      LastStoredAt(vs, k);
    }
    RoundTrip(vs, true, "", "");
  }
}
