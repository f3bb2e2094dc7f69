/** `GenUtil`: integer parsing with a default, the `Setting=Value`
    splitter, the Steam library search through `libraryfolders.vdf`, and
    the default-browser classification. The registry and the file system
    are parameters: a `Disk` lists the files with their lines and the
    folders `IsRSFolder` accepts. */
module GenUtil {
  import opened Wrappers
  import opened Text

  // ------------------------------------------------------------------
  // StrToIntDef

  /** `StrToIntDef(s, @default)`: the number `s` parses as, else the default. */
  function StrToIntDef(s: string, default: int32): int32 {
    match ParseInt(s)
    case Some(n) => n
    case None => default
  }

  /** The text of a number gives that number back, whatever the default. */
  lemma {:induction false} StrToIntDefPrinted(x: int32, default: int32)
    ensures StrToIntDef(IntToString(x as int), default) == x
  {
    IntToStringParses(x);
  }

  /** Text without a single digit gives the default. */
  lemma {:induction false} StrToIntDefNoDigits(s: string, default: int32)
    requires forall i :: 0 <= i < |s| ==> !IsDigit(s[i])
    ensures StrToIntDef(s, default) == default
  {
    var z := TrimEnd(s, Exactly('\0'));
    TrimEndShape(s, Exactly('\0'));
    var t := TrimBoth(z, NumberSpace);
    TrimStartShape(z, NumberSpace);
    TrimEndShape(TrimStart(z, NumberSpace), NumberSpace);
    assert forall i :: 0 <= i < |t| ==> !IsDigit(t[i]) by {
      var u := TrimStart(z, NumberSpace);
      forall i | 0 <= i < |t|
        ensures !IsDigit(t[i])
      {
        assert t[i] == u[i] == z[|z| - |u| + i] == s[|z| - |u| + i];
      }
    }
    var signed := |t| > 0 && (t[0] == '-' || t[0] == '+');
    var body := if signed then t[1..] else t;
    if body != [] {
      assert !IsDigit(body[0]) by {
        if signed { assert body[0] == t[1]; } else { assert body[0] == t[0]; }
      }
    }
  }

  // ------------------------------------------------------------------
  // GetSettingsPairs

  /** The exceptions `GetSettingsPairs` lets escape: `Split('=')[1]` on a
      line without `=` (`IndexOutOfRangeException`) and `Dictionary.Add`
      of a key already present (`ArgumentException`). */
  datatype PairsError = MissingSeparator(line: nat) | DuplicateKey(key: string)

  /** `line.Split('=')[0].Trim()`: the text before the first `=`. */
  function PairKey(line: string): string
    requires '=' in line
  {
    Trim(line[..IndexOf(line, '=')])
  }

  /** `line.Split('=')[1].Trim()`: the text between the first and the
      second `=`, or to the end when there is no second one. */
  function PairValue(line: string): string
    requires '=' in line
  {
    var rest := line[IndexOf(line, '=') + 1..];
    Trim(if '=' in rest then rest[..IndexOf(rest, '=')] else rest)
  }

  /** One line, split: `NoSeparator` where `Split('=')[1]` would throw. */
  datatype Entry = NoSeparator | Entry(key: string, value: string)

  function SplitLine(line: string): Entry {
    if '=' in line then Entry(PairKey(line), PairValue(line)) else NoSeparator
  }

  function SplitLines(lines: seq<string>): (es: seq<Entry>)
    ensures |es| == |lines|
  {
    seq(|lines|, i requires 0 <= i < |lines| => SplitLine(lines[i]))
  }

  /** The dictionary the entries build in turn, or the first exception. */
  function Build(es: seq<Entry>): Result<map<string, string>, PairsError> {
    if es == [] then Success(map[])
    else
      var n := |es| - 1;
      match Build(es[..n])
      case Failure(e) => Failure(e)
      case Success(m) =>
        if es[n].NoSeparator? then Failure(MissingSeparator(n))
        else if es[n].key in m then Failure(DuplicateKey(es[n].key))
        else Success(m[es[n].key := es[n].value])
  }

  /** `GetSettingsPairs`: each line in turn adds its pair. */
  method GetSettingsPairs(settingsLines: seq<string>) returns (r: Result<map<string, string>, PairsError>)
    ensures r == Build(SplitLines(settingsLines))
  {
    ghost var es := SplitLines(settingsLines);
    var dictRet: map<string, string> := map[];
    for i := 0 to |settingsLines|
      invariant Build(es[..i]) == Success(dictRet)
    {
      var line := settingsLines[i];
      assert es[i] == SplitLine(line);
      if '=' !in line {
        assert Build(es) == Failure(MissingSeparator(i)) by {
          BuildThrows(es, i, dictRet);
        }
        return Failure(MissingSeparator(i));
      }
      var entry, value := PairKey(line), PairValue(line);
      if entry in dictRet {
        assert Build(es) == Failure(DuplicateKey(entry)) by {
          BuildThrows(es, i, dictRet);
        }
        return Failure(DuplicateKey(entry));
      }
      assert Build(es[..i + 1]) == Success(dictRet[entry := value]) by {
        BuildAdds(es, i, dictRet);
      }
      dictRet := dictRet[entry := value];
    }
    assert es[..|settingsLines|] == es;
    return Success(dictRet);
  }

  /** A line with an `=` and a new key adds its pair. */
  lemma {:induction false} BuildAdds(es: seq<Entry>, i: int, m: map<string, string>)
    requires 0 <= i < |es| && Build(es[..i]) == Success(m)
    requires es[i].Entry? && es[i].key !in m
    ensures Build(es[..i + 1]) == Success(m[es[i].key := es[i].value])
  {
    assert es[..i + 1][..i] == es[..i];
  }

  /** A line without an `=`, or with a key already added, ends the loop
      with its exception. */
  lemma {:induction false} BuildThrows(es: seq<Entry>, i: int, m: map<string, string>)
    requires 0 <= i < |es| && Build(es[..i]) == Success(m)
    requires es[i].NoSeparator? || es[i].key in m
    ensures Build(es) == if es[i].NoSeparator? then Failure(MissingSeparator(i)) else Failure(DuplicateKey(es[i].key))
  {
    assert es[..i + 1][..i] == es[..i];
    BuildStop(es, i + 1);
  }

  /** An exception ends the loop: the lines after it change nothing. */
  lemma {:induction false} BuildStop(es: seq<Entry>, n: nat)
    requires n <= |es| && Build(es[..n]).Failure?
    ensures Build(es) == Build(es[..n])
    decreases |es| - n
  {
    if n < |es| {
      assert es[..n + 1][..n] == es[..n];
      BuildStop(es, n + 1);
    } else {
      assert es[..n] == es;
    }
  }

  /** Every line has an `=`, and no two lines the same key. */
  predicate WellFormed(es: seq<Entry>) {
    && (forall i :: 0 <= i < |es| ==> es[i].Entry?)
    && (forall i, j :: 0 <= i < j < |es| && es[i].Entry? && es[j].Entry? ==> es[i].key != es[j].key)
  }

  /** The lines make a dictionary exactly when every line has an `=` and
      no two lines have the same trimmed key. */
  lemma {:induction false} BuildSucceeds(es: seq<Entry>)
    ensures Build(es).Success? <==> WellFormed(es)
    decreases |es|
  {
    if es != [] {
      var n := |es| - 1;
      BuildSucceeds(es[..n]);
      assert forall i :: 0 <= i < n ==> es[..n][i] == es[i];
      if Build(es[..n]).Success? && es[n].Entry? {
        BuildKeys(es[..n]);
      }
    }
  }

  /** The dictionary's keys are the keys of the lines. */
  lemma {:induction false} BuildKeys(es: seq<Entry>)
    requires Build(es).Success?
    ensures forall i :: 0 <= i < |es| ==> es[i].Entry?
    ensures forall k :: k in Build(es).value <==> exists i :: 0 <= i < |es| && es[i].Entry? && es[i].key == k
    decreases |es|
  {
    if es != [] {
      var n := |es| - 1;
      BuildKeys(es[..n]);
      assert forall i :: 0 <= i < n ==> es[..n][i] == es[i];
    }
  }

  /** Each line's key maps to that line's value. */
  lemma {:induction false} BuildValues(es: seq<Entry>)
    requires Build(es).Success?
    ensures forall i :: 0 <= i < |es| && es[i].Entry? ==> es[i].key in Build(es).value && Build(es).value[es[i].key] == es[i].value
    decreases |es|
  {
    if es != [] {
      var n := |es| - 1;
      BuildValues(es[..n]);
      assert forall i :: 0 <= i < n ==> es[..n][i] == es[i];
    }
  }

  /** The dictionary `GetSettingsPairs` returns, line by line: it exists
      exactly when every line has an `=` and the trimmed keys are distinct,
      and then maps each line's key to its value. */
  lemma {:induction false} SettingsPairsSpec(lines: seq<string>)
    ensures Build(SplitLines(lines)).Success? <==>
      (forall i :: 0 <= i < |lines| ==> '=' in lines[i])
      && forall i, j :: 0 <= i < j < |lines| && '=' in lines[i] && '=' in lines[j] ==> PairKey(lines[i]) != PairKey(lines[j])
    ensures Build(SplitLines(lines)).Success? ==>
      forall i :: 0 <= i < |lines| && '=' in lines[i] ==>
        PairKey(lines[i]) in Build(SplitLines(lines)).value && Build(SplitLines(lines)).value[PairKey(lines[i])] == PairValue(lines[i])
  {
    var es := SplitLines(lines);
    assert forall i :: 0 <= i < |lines| ==> es[i] == SplitLine(lines[i]);
    BuildSucceeds(es);
    if Build(es).Success? {
      BuildValues(es);
      forall i | 0 <= i < |lines| && '=' in lines[i]
        ensures PairKey(lines[i]) in Build(es).value && Build(es).value[PairKey(lines[i])] == PairValue(lines[i])
      {
        assert es[i] == Entry(PairKey(lines[i]), PairValue(lines[i]));
      }
    }
  }

  // ------------------------------------------------------------------
  // Paths

  /** `Path.IsPathRooted`. */
  predicate Rooted(p: string) {
    (|p| > 0 && (p[0] == '\\' || p[0] == '/')) || (|p| > 1 && p[1] == ':')
  }

  /** `Path.Combine(a, b)`. */
  function Combine(a: string, b: string): string {
    if b == [] then a
    else if a == [] || Rooted(b) then b
    else if a[|a| - 1] in {'\\', '/', ':'} then a + b
    else a + "\\" + b
  }

  predicate IsSeparator(c: char) {
    c == '\\' || c == '/'
  }

  /** The separator normalisation `Path.GetDirectoryName` applies before
      cutting (`PathInternal.NormalizeDirectorySeparators`): every `/`
      becomes `\`, and a run of separators collapses to one, except that
      the first character never merges with the second, so a UNC path keeps
      its leading `\\`. */
  function NormalizeSeparators(p: string): string {
    if p == [] then []
    else
      var init, c := p[..|p| - 1], p[|p| - 1];
      if IsSeparator(c) && |init| >= 2 && IsSeparator(init[|init| - 1]) then NormalizeSeparators(init)
      else NormalizeSeparators(init) + [if IsSeparator(c) then '\\' else c]
  }

  /** Text without separators. */
  predicate NoPathSeparator(t: string) {
    forall i :: 0 <= i < |t| ==> !IsSeparator(t[i])
  }

  /** A path the normalisation leaves alone: no `/`, and no two backslashes
      in a row after the first character. */
  predicate SeparatorsNormal(p: string) {
    '/' !in p && forall i :: 1 <= i < |p| - 1 ==> !(p[i] == '\\' && p[i + 1] == '\\')
  }

  /** The text before the last backslash, none when there is no backslash. */
  function BeforeLastBackslash(p: string): string {
    if p == [] then []
    else if p[|p| - 1] == '\\' then p[..|p| - 1]
    else BeforeLastBackslash(p[..|p| - 1])
  }

  /** `Path.GetDirectoryName`: the normalised path up to its last separator. */
  function DirectoryName(p: string): string {
    BeforeLastBackslash(NormalizeSeparators(p))
  }

  /** The normalised path is normal: no `/` and no doubled backslash past
      the first character. */
  lemma {:induction false} NormalizeSeparatorsShape(p: string)
    ensures SeparatorsNormal(NormalizeSeparators(p))
    ensures p != [] ==> (NormalizeSeparators(p) != [] &&
      NormalizeSeparators(p)[|NormalizeSeparators(p)| - 1] == (if IsSeparator(p[|p| - 1]) then '\\' else p[|p| - 1]))
    ensures |p| >= 2 ==> |NormalizeSeparators(p)| >= 2
    decreases |p|
  {
    if p != [] {
      var init, c := p[..|p| - 1], p[|p| - 1];
      var n := NormalizeSeparators(init);
      NormalizeSeparatorsShape(init);
      if !(IsSeparator(c) && |init| >= 2 && IsSeparator(init[|init| - 1])) {
        var r := n + [if IsSeparator(c) then '\\' else c];
        assert '/' !in r by {
          forall k | 0 <= k < |r| ensures r[k] != '/' {
            if k < |n| { assert r[k] == n[k]; }
          }
        }
        forall i | 1 <= i < |r| - 1 ensures !(r[i] == '\\' && r[i + 1] == '\\') {
          assert r[i] == n[i];
          if i + 1 < |n| { assert r[i + 1] == n[i + 1]; }
          else if r[i + 1] == '\\' {
            assert IsSeparator(c) && |init| >= 2 && !IsSeparator(init[|init| - 1]);
          }
        }
      }
    }
  }

  /** A normal path is its own normalisation. */
  lemma {:induction false} NormalizeSeparatorsPlain(p: string)
    requires SeparatorsNormal(p)
    ensures NormalizeSeparators(p) == p
    decreases |p|
  {
    if p != [] {
      var init, c := p[..|p| - 1], p[|p| - 1];
      assert SeparatorsNormal(init) by {
        forall k | 0 <= k < |init| ensures init[k] != '/' {
          assert init[k] == p[k];
        }
        forall i | 1 <= i < |init| - 1 ensures !(init[i] == '\\' && init[i + 1] == '\\') {
          assert init[i] == p[i] && init[i + 1] == p[i + 1];
        }
      }
      NormalizeSeparatorsPlain(init);
      assert c != '/';
      assert !(IsSeparator(c) && |init| >= 2 && IsSeparator(init[|init| - 1])) by {
        if c == '\\' && |init| >= 2 {
          assert init[|init| - 1] == p[|p| - 2];
          assert p[|p| - 2] != '/';
        }
      }
      assert NormalizeSeparators(p) == init + [c];
      assert init + [c] == p;
    }
  }

  /** Helper: text without separators passes through the normalisation. */
  lemma {:induction false} NormalizeSeparatorsAppend(p: string, file: string)
    requires NoPathSeparator(file)
    ensures NormalizeSeparators(p + file) == NormalizeSeparators(p) + file
    decreases |file|
  {
    if file != [] {
      var f, c := file[..|file| - 1], file[|file| - 1];
      var q := p + file;
      NormalizeSeparatorsAppend(p, f);
      assert q[..|q| - 1] == p + f && q[|q| - 1] == c && !IsSeparator(c);
      assert NormalizeSeparators(q) == NormalizeSeparators(p + f) + [c];
      assert NormalizeSeparators(p) + f + [c] == NormalizeSeparators(p) + file;
    } else {
      assert p + file == p && NormalizeSeparators(p) + file == NormalizeSeparators(p);
    }
  }

  /** Helper: one separator after a name that does not end in one is kept,
      as a backslash. */
  lemma {:induction false} NormalizeSeparatorsSep(p: string)
    requires p != [] && !IsSeparator(p[|p| - 1])
    ensures NormalizeSeparators(p + "\\") == NormalizeSeparators(p) + "\\"
  {
    assert (p + "\\")[..|p|] == p;
  }

  /** Helper: the text before the last backslash of `dir\file`, for a file
      name without one, is `dir`. */
  lemma {:induction false} BeforeLastOfFile(dir: string, file: string)
    requires '\\' !in file
    ensures BeforeLastBackslash(dir + "\\" + file) == dir
    decreases |file|
  {
    var p := dir + "\\" + file;
    if file == [] {
      assert p[..|p| - 1] == dir;
    } else {
      var f' := file[..|file| - 1];
      assert p[..|p| - 1] == dir + "\\" + f';
      BeforeLastOfFile(dir, f');
    }
  }

  /** The directory of a file in a folder whose name does not end in a
      separator is that folder, normalised. */
  lemma {:induction false} DirectoryNameOfFile(dir: string, file: string)
    requires dir != [] && !IsSeparator(dir[|dir| - 1])
    requires NoPathSeparator(file)
    ensures DirectoryName(dir + "\\" + file) == NormalizeSeparators(dir)
  {
    var d := NormalizeSeparators(dir);
    NormalizeSeparatorsSep(dir);
    NormalizeSeparatorsAppend(dir + "\\", file);
    assert dir + "\\" + file == (dir + "\\") + file;
    assert '\\' !in file by {
      forall k | 0 <= k < |file| ensures file[k] != '\\' {
        assert !IsSeparator(file[k]);
      }
    }
    BeforeLastOfFile(d, file);
  }

  // ------------------------------------------------------------------
  // GetCustomSteamappsFolders

  /** The largest index in `[lo, hi)` holding a double quote, or -1. */
  function LastQuote(s: string, lo: int, hi: int): (r: int)
    requires 0 <= lo && hi <= |s|
    ensures r == -1 || (lo <= r < hi && s[r] == '"')
    ensures forall j :: lo <= j < hi && j > r ==> s[j] != '"'
    decreases hi - lo
  {
    if hi <= lo then -1
    else if s[hi - 1] == '"' then hi - 1
    else LastQuote(s, lo, hi - 1)
  }

  /** The text `Regex.Match` sees: `.` stops at a line feed, and the match
      is anchored at the start, so only the text before the first line
      feed matters. */
  function FirstLine(l: string): string {
    if '\n' in l then l[..IndexOf(l, '\n')] else l
  }

  /** The pattern `(^\t"[1-9]").*(".*")` on one line: a tab, a quoted
      digit 1-9, and then at least two quotes. The greedy `.*` puts group 2
      between the last two quotes, and `Trim('"')` takes the quotes off. */
  function LibraryFolder(l: string): Option<string> {
    var t := FirstLine(l);
    if |t| >= 4 && t[0] == '\t' && t[1] == '"' && '1' <= t[2] <= '9' && t[3] == '"' then
      var q := LastQuote(t, 4, |t|);
      if q < 0 then None
      else
        var p := LastQuote(t, 4, q);
        if p < 0 then None else Some(TrimChar(t[p..q + 1], '"'))
    else None
  }

  /** The folder is the text strictly between the last two quotes. */
  lemma {:induction false} LibraryFolderShape(l: string)
    requires LibraryFolder(l).Some?
    ensures var t := FirstLine(l);
      var q := LastQuote(t, 4, |t|);
      var p := LastQuote(t, 4, q);
      LibraryFolder(l).value == t[p + 1..q]
    ensures '"' !in LibraryFolder(l).value
  {
    var t := FirstLine(l);
    var q := LastQuote(t, 4, |t|);
    var p := LastQuote(t, 4, q);
    var inner := t[p + 1..q];
    assert '"' !in inner by {
      assert forall j :: 0 <= j < |inner| ==> inner[j] == t[p + 1 + j];
    }
    assert t[p..q + 1] == ['"'] + inner + ['"'];
    TrimQuotes(inner);
  }

  /** `Trim('"')` takes the quotes off a quoted text without quotes. */
  lemma {:induction false} TrimQuotes(inner: string)
    requires '"' !in inner
    ensures TrimChar(['"'] + inner + ['"'], '"') == inner
  {
    var g := ['"'] + inner + ['"'];
    var u := inner + ['"'];
    assert g[1..] == u;
    assert TrimStart(g, Exactly('"')) == TrimStart(u, Exactly('"'));
    if inner == [] {
      assert u[1..] == [];
      assert TrimStart(u, Exactly('"')) == TrimStart([], Exactly('"')) == [];
    } else {
      assert u[0] == inner[0];
      assert TrimStart(u, Exactly('"')) == u;
      assert u[..|u| - 1] == inner;
      assert TrimEnd(u, Exactly('"')) == TrimEnd(inner, Exactly('"'));
      assert inner[|inner| - 1] in inner;
      assert TrimEnd(inner, Exactly('"')) == inner;
    }
  }

  /** The line Steam writes for an extra library, `\t"1"\t\t"D:\Games"`,
      gives its folder. */
  lemma {:induction false} LibraryLine(d: char, folder: string)
    requires '1' <= d <= '9' && '"' !in folder && '\n' !in folder
    ensures LibraryFolder("\t\"" + [d] + "\"\t\t\"" + folder + "\"") == Some(folder)
  {
    var l := "\t\"" + [d] + "\"\t\t\"" + folder + "\"";
    assert '\n' !in l by {
      assert forall j :: 0 <= j < |l| ==> l[j] == '\n' ==> 7 <= j < |l| - 1 && l[j] == folder[j - 7];
    }
    assert FirstLine(l) == l;
    var q := LastQuote(l, 4, |l|);
    assert q == |l| - 1;
    var p := LastQuote(l, 4, q);
    assert l[6] == '"';
    assert forall j :: 6 < j < q ==> l[j] == folder[j - 7];
    assert p == 6;
    LibraryFolderShape(l);
    assert l[7..|l| - 1] == folder;
  }

  /** What the pattern gives for each line. */
  function Matches(lines: seq<string>): (ms: seq<Option<string>>)
    ensures |ms| == |lines|
  {
    seq(|lines|, i requires 0 <= i < |lines| => LibraryFolder(lines[i]))
  }

  /** The values of the matches, in order. */
  function Collect(ms: seq<Option<string>>): seq<string> {
    if ms == [] then []
    else
      var n := |ms| - 1;
      Collect(ms[..n]) + (if ms[n].Some? then [ms[n].value] else [])
  }

  /** The folders of the lines that match, in file order. */
  function Folders(lines: seq<string>): seq<string> {
    Collect(Matches(lines))
  }

  /** Every collected value comes from a match, and there are no more of
      them than matches; there are none exactly when nothing matched. */
  lemma {:induction false} CollectSpec(ms: seq<Option<string>>)
    ensures |Collect(ms)| <= |ms|
    ensures forall k :: 0 <= k < |Collect(ms)| ==> Some(Collect(ms)[k]) in ms
    ensures Collect(ms) == [] <==> forall i :: 0 <= i < |ms| ==> ms[i].None?
    decreases |ms|
  {
    if ms != [] {
      var n := |ms| - 1;
      CollectSpec(ms[..n]);
      assert forall i :: 0 <= i < n ==> ms[..n][i] == ms[i];
      assert forall o :: o in ms[..n] ==> o in ms;
    }
  }

  /** No folder has a quote in it, there are no more folders than lines,
      and there are none exactly when no line matches. */
  lemma {:induction false} FoldersSpec(lines: seq<string>)
    ensures |Folders(lines)| <= |lines|
    ensures forall k :: 0 <= k < |Folders(lines)| ==> '"' !in Folders(lines)[k]
    ensures Folders(lines) == [] <==> forall i :: 0 <= i < |lines| ==> LibraryFolder(lines[i]).None?
  {
    var ms := Matches(lines);
    CollectSpec(ms);
    assert forall i :: 0 <= i < |lines| ==> ms[i] == LibraryFolder(lines[i]);
    forall k | 0 <= k < |Folders(lines)|
      ensures '"' !in Folders(lines)[k]
    {
      var i :| 0 <= i < |ms| && ms[i] == Some(Folders(lines)[k]);
      LibraryFolderShape(lines[i]);
    }
  }

  /** The part of the file system the search reads. */
  datatype Disk = Disk(files: map<string, seq<string>>, rsFolders: set<string>)

  function VdfPath(mainSteamPath: string): string {
    Combine(Combine(mainSteamPath, "steamapps"), "libraryfolders.vdf")
  }

  /** The libraries `GetCustomSteamappsFolders` returns. */
  function SteamLibraries(disk: Disk, mainSteamPath: string): seq<string> {
    if VdfPath(mainSteamPath) in disk.files then Folders(disk.files[VdfPath(mainSteamPath)]) else []
  }

  /** `GetCustomSteamappsFolders`: the folder of every matching line of
      `libraryfolders.vdf`; none when the file is missing. */
  method GetCustomSteamappsFolders(disk: Disk, mainSteamPath: string) returns (libDirs: seq<string>)
    ensures libDirs == SteamLibraries(disk, mainSteamPath)
  {
    var steamappsFolder := Combine(mainSteamPath, "steamapps");
    var libVdf := Combine(steamappsFolder, "libraryfolders.vdf");
    if libVdf !in disk.files {
      return [];
    }
    var content := disk.files[libVdf];
    ghost var ms := Matches(content);
    libDirs := [];
    for i := 0 to |content|
      invariant libDirs == Collect(ms[..i])
    {
      assert ms[..i + 1][..i] == ms[..i] && ms[i] == LibraryFolder(content[i]);
      var dir := LibraryFolder(content[i]);
      if dir.Some? {
        libDirs := libDirs + [dir.value];
      }
    }
    assert ms[..|content|] == ms;
  }

  // ------------------------------------------------------------------
  // GetCustomRSFolder

  function ManifestPath(library: string): string {
    Combine(Combine(library, "steamapps"), "appmanifest_221680.acf")
  }

  /** `Path.Combine(GetDirectoryName(manifest), "common", "Rocksmith2014")`. */
  function GamePath(library: string): string {
    Combine(Combine(DirectoryName(ManifestPath(library)), "common"), "Rocksmith2014")
  }

  /** A library holds the game when its manifest exists and the game
      folder passes `IsRSFolder`. */
  predicate HoldsGame(disk: Disk, library: string) {
    ManifestPath(library) in disk.files && GamePath(library) in disk.rsFolders
  }

  /** Joining a name that is not rooted ends with that name. */
  lemma {:induction false} CombineEnds(a: string, b: string)
    requires b != [] && !Rooted(b)
    ensures Combine(a, b) != [] && Combine(a, b)[|Combine(a, b)| - 1] == b[|b| - 1]
  {
  }

  /** Joining to a folder whose name ends in a letter puts a backslash in. */
  lemma {:induction false} CombineSeparates(a: string, b: string)
    requires a != [] && 'a' <= a[|a| - 1] <= 'z' && b != [] && !Rooted(b)
    ensures Combine(a, b) == a + "\\" + b
  {
  }

  /** The game folder sits in the library's `steamapps\common`, with the
      separators of the library's `steamapps` folder normalised; for a
      library path already normal, it is exactly
      `library\steamapps\common\Rocksmith2014`. */
  lemma {:induction false} GamePathShape(library: string)
    ensures GamePath(library) ==
      Combine(Combine(NormalizeSeparators(Combine(library, "steamapps")), "common"), "Rocksmith2014")
    ensures SeparatorsNormal(Combine(library, "steamapps")) ==>
      GamePath(library) == Combine(Combine(Combine(library, "steamapps"), "common"), "Rocksmith2014")
    ensures GamePath(library) != ""
  {
    var s := Combine(library, "steamapps");
    var m := "appmanifest_221680.acf";
    CombineEnds(library, "steamapps");
    CombineSeparates(s, m);
    DirectoryNameOfFile(s, m);
    if SeparatorsNormal(s) {
      NormalizeSeparatorsPlain(s);
    }
    CombineEnds(Combine(NormalizeSeparators(s), "common"), "Rocksmith2014");
  }

  /** A separator doubled after the start of a path, as a vdf file escapes
      it, normalises away: the library `pre\\name` (escaped) has the same
      game folder as `pre\name`. */
  lemma {:induction false} GamePathEscaped(pre: string, name: string)
    requires |pre| >= 2 && IsSeparator(pre[|pre| - 1])
    requires name != [] && NoPathSeparator(name) && name[|name| - 1] != ':'
    ensures GamePath(pre + "\\" + name) == GamePath(pre + name)
  {
    var esc, lib := pre + "\\" + name, pre + name;
    assert NormalizeSeparators(pre + "\\") == NormalizeSeparators(pre) by {
      assert (pre + "\\")[..|pre|] == pre;
    }
    assert NormalizeSeparators(esc) == NormalizeSeparators(lib) by {
      NormalizeSeparatorsAppend(pre + "\\", name);
      NormalizeSeparatorsAppend(pre, name);
      assert esc == (pre + "\\") + name;
    }
    assert esc[|esc| - 1] == lib[|lib| - 1] == name[|name| - 1];
    assert NormalizeSeparators(esc + "\\") == NormalizeSeparators(lib + "\\") by {
      NormalizeSeparatorsSep(esc);
      NormalizeSeparatorsSep(lib);
    }
    assert NormalizeSeparators(Combine(esc, "steamapps")) == NormalizeSeparators(Combine(lib, "steamapps")) by {
      assert Combine(esc, "steamapps") == (esc + "\\") + "steamapps";
      assert Combine(lib, "steamapps") == (lib + "\\") + "steamapps";
      assert NoPathSeparator("steamapps");
      NormalizeSeparatorsAppend(esc + "\\", "steamapps");
      NormalizeSeparatorsAppend(lib + "\\", "steamapps");
    }
    GamePathShape(esc);
    GamePathShape(lib);
  }

  /** No library in `libs` holds the game. */
  predicate NoneHold(disk: Disk, libs: seq<string>) {
    forall j :: 0 <= j < |libs| ==> !HoldsGame(disk, libs[j])
  }

  lemma {:induction false} NoneHoldNext(disk: Disk, libs: seq<string>, i: int)
    requires 0 <= i < |libs| && NoneHold(disk, libs[..i]) && !HoldsGame(disk, libs[i])
    ensures NoneHold(disk, libs[..i + 1])
  {
    var next := libs[..i + 1];
    forall j | 0 <= j < i + 1
      ensures !HoldsGame(disk, next[j])
    {
      if j < i {
        assert next[j] == libs[..i][j];
      }
    }
  }

  /** `path` is the game folder of the first library that holds the game. */
  predicate FirstHolding(disk: Disk, libs: seq<string>, path: string) {
    exists i :: 0 <= i < |libs| && HoldsGame(disk, libs[i]) && path == GamePath(libs[i]) &&
      forall j :: 0 <= j < i ==> !HoldsGame(disk, libs[j])
  }

  /** A library that holds the game after none before it did is the first. */
  lemma {:induction false} FirstHoldingAt(disk: Disk, libs: seq<string>, i: int)
    requires 0 <= i < |libs| && NoneHold(disk, libs[..i]) && HoldsGame(disk, libs[i])
    ensures FirstHolding(disk, libs, GamePath(libs[i]))
    ensures GamePath(libs[i]) != "" && !NoneHold(disk, libs)
  {
    forall j | 0 <= j < i
      ensures !HoldsGame(disk, libs[j])
    {
      assert libs[j] == libs[..i][j];
    }
    GamePathShape(libs[i]);
  }

  /** `GetCustomRSFolder`: the game folder of the first library, in file
      order, that holds the game; the empty string when none does. */
  method GetCustomRSFolder(disk: Disk, mainSteamPath: string) returns (r: string)
    ensures r == "" <==> NoneHold(disk, SteamLibraries(disk, mainSteamPath))
    ensures r != "" ==> FirstHolding(disk, SteamLibraries(disk, mainSteamPath), r)
  {
    var folders := GetCustomSteamappsFolders(disk, mainSteamPath);
    var rsFolderPath := "";
    var found := false;
    var i := 0;
    while i < |folders|
      invariant 0 <= i <= |folders|
      invariant NoneHold(disk, folders[..i])
    {
      var dirPath := ManifestPath(folders[i]);
      if dirPath in disk.files {
        var finalPath := DirectoryName(dirPath);
        rsFolderPath := Combine(Combine(finalPath, "common"), "Rocksmith2014");
        assert rsFolderPath == GamePath(folders[i]);
        if rsFolderPath in disk.rsFolders {
          found := true;
          break;
        }
      }
      NoneHoldNext(disk, folders, i);
      i := i + 1;
    }
    if found {
      assert HoldsGame(disk, folders[i]);
      assert FirstHolding(disk, folders, rsFolderPath) && rsFolderPath != "" && !NoneHold(disk, folders) by {
        FirstHoldingAt(disk, folders, i);
      }
      return rsFolderPath;
    }
    assert i == |folders| && folders[..i] == folders;
    return "";
  }

  // ------------------------------------------------------------------
  // GetDefaultBrowser

  /** `GetDefaultBrowser(url)`, given the `Progid` of the user's choice for
      http links (`None` when the key or the value is missing): the first
      browser name found in the lower-cased id decides. */
  function DefaultBrowser(url: string, progId: Option<string>): string {
    if progId.None? then "iexplore.exe"
    else
      var id := ToLower(progId.value);
      if Contains(id, "chrome") then "chrome.exe"
      else if Contains(id, "firefox") then "firefox.exe"
      else if Contains(id, "safari") then "safari.exe"
      else if Contains(id, "opera") then "opera.exe"
      else if Contains(id, "brave") then "brave.exe"
      else if Contains(id, "edge") then "microsoft-edge:" + url
      else "iexplore.exe"
  }

  /** Some browser name occurs in the lower-cased id. */
  predicate NamesBrowser(id: string) {
    Contains(id, "chrome") || Contains(id, "firefox") || Contains(id, "safari")
    || Contains(id, "opera") || Contains(id, "brave") || Contains(id, "edge")
  }

  /** Edge is announced by a URL to open, Internet Explorer is the
      fallback exactly when no name matches, and Chrome wins over all. */
  lemma {:induction false} DefaultBrowserSpec(url: string, progId: Option<string>)
    ensures DefaultBrowser(url, progId) == "iexplore.exe" <==> progId.None? || !NamesBrowser(ToLower(progId.value))
    ensures DefaultBrowser(url, progId) == "microsoft-edge:" + url <==>
      progId.Some? && var id := ToLower(progId.value);
        Contains(id, "edge") && !(Contains(id, "chrome") || Contains(id, "firefox") || Contains(id, "safari")
          || Contains(id, "opera") || Contains(id, "brave"))
    ensures progId.Some? && Contains(ToLower(progId.value), "chrome") ==> DefaultBrowser(url, progId) == "chrome.exe"
  {
    var edge := "microsoft-edge:" + url;
    assert edge[..10] == "microsoft-";
    assert edge != "iexplore.exe" && edge != "chrome.exe" && edge != "firefox.exe" && edge != "safari.exe"
      && edge != "opera.exe" && edge != "brave.exe" by {
      assert edge[0] == 'm';
    }
  }
}
