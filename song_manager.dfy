/** The song list and the authenticity count (`SongManager.cs`): the
    records read from the game's package files are filtered and
    de-duplicated by DLC key (`ExtractSongData`), and `Validate` counts the
    official songs that cannot be genuine from fixed rules on their Steam
    AppID. Reading the archives is not modelled: each package file is given
    as its AppID, its toolkit author and its arrangement records. */
module SongManager {
  import opened Wrappers
  import opened Text
  import opened IniCommon

  /** `SongData`. The artist, title and SKU come from the archive and can be
      null. */
  datatype SongData = SongData(
    dlcKey: string,
    appId: int32,
    artist: Option<string>,
    title: Option<string>,
    commonName: string,
    shipping: bool,
    odlc: bool,
    sku: Option<string>,
    rs1AppId: int32)

  // ------------------------------------------------------------------
  // Validate

  /** The branch of `Validate`'s loop a song takes. */
  datatype Kind = CompatDisc | ExercisePack | PackOnly | Ordinary

  predicate IsExerciseId(id: int32) {
    id == 899900 || id == 1089222 || id == 1089172 || id == 1122551 || id == 1089199 || id == 1122574
  }

  predicate IsPackId(id: int32) {
    id == 436572 || id == 294990 || id == 390389 || id == 753836
  }

  /** The pack-only AppIDs, each of which should hold exactly five songs. */
  const PackIds: seq<int32> := [436572, 294990, 390389, 753836]

  function KindOf(s: SongData): Kind {
    if s.appId == 258341 && s.rs1AppId == 0 && s.sku == Some("RS1") then CompatDisc
    else if IsExerciseId(s.appId) then ExercisePack
    else if IsPackId(s.appId) then PackOnly
    else Ordinary
  }

  /** An exercise-pack song is genuine when its name mentions NoteTrackers. */
  predicate NoteTrackers(s: SongData) {
    Contains(ToLower(s.commonName), "notetrackers")
  }

  /** The classes of songs the count is made of. */
  datatype Tally = FlaggedExercise | OrdinarySong | WithAppId(id: int32)

  predicate Counts(s: SongData, t: Tally) {
    match t
    case FlaggedExercise => KindOf(s) == ExercisePack && !NoteTrackers(s)
    case OrdinarySong => KindOf(s) == Ordinary
    case WithAppId(id) => s.appId == id
  }

  /** How many of the songs are in class `t`. */
  function Count(xs: seq<SongData>, t: Tally): nat {
    if xs == [] then 0 else Count(xs[..|xs| - 1], t) + (if Counts(xs[|xs| - 1], t) then 1 else 0)
  }

  /** The AppIDs of the ordinary songs. */
  function OrdinaryIds(xs: seq<SongData>): set<int32> {
    set s | s in xs && KindOf(s) == Ordinary :: s.appId
  }

  /** A pack-only AppID contributes all its songs when it has more than
      five, and none otherwise. */
  function PackExcess(n: nat): nat {
    if n > 5 then n else 0
  }

  function PackSum(order: seq<int32>, xs: seq<SongData>): nat {
    if order == [] then 0
    else PackSum(order[..|order| - 1], xs) + PackExcess(Count(xs, WithAppId(order[|order| - 1])))
  }

  /** The number `Validate` returns, by rule: every exercise-pack song
      without "notetrackers" in its name, every ordinary song whose AppID an
      earlier ordinary song has (all but one per AppID), and all the songs
      of a pack-only AppID that has more than five. */
  function NonAuthentic(xs: seq<SongData>): int {
    Count(xs, FlaggedExercise) + (Count(xs, OrdinarySong) - |OrdinaryIds(xs)|) + PackFlagged(xs)
  }

  /** The pack-only rule over the four pack-only AppIDs. */
  function PackFlagged(xs: seq<SongData>): nat {
    PackExcess(Count(xs, WithAppId(436572))) + PackExcess(Count(xs, WithAppId(294990)))
      + PackExcess(Count(xs, WithAppId(390389))) + PackExcess(Count(xs, WithAppId(753836)))
  }

  lemma {:induction false} PackSumFour(xs: seq<SongData>)
    ensures PackSum(PackIds, xs) == PackFlagged(xs)
  {
    var p3, p2, p1: seq<int32> := [436572, 294990, 390389], [436572, 294990], [436572];
    assert PackIds[..3] == p3 && p3[..2] == p2 && p2[..1] == p1 && p1[..0] == [];
    assert PackSum(PackIds, xs) == PackSum(p3, xs) + PackExcess(Count(xs, WithAppId(753836)));
    assert PackSum(p3, xs) == PackSum(p2, xs) + PackExcess(Count(xs, WithAppId(390389)));
    assert PackSum(p2, xs) == PackSum(p1, xs) + PackExcess(Count(xs, WithAppId(294990)));
    assert PackSum(p1, xs) == PackExcess(Count(xs, WithAppId(436572)));
  }

  lemma {:induction false} CountSnoc(xs: seq<SongData>, s: SongData, t: Tally)
    ensures Count(xs + [s], t) == Count(xs, t) + (if Counts(s, t) then 1 else 0)
  {
    assert (xs + [s])[..|xs|] == xs;
  }

  lemma {:induction false} OrdinaryIdsSnoc(xs: seq<SongData>, s: SongData)
    ensures OrdinaryIds(xs + [s]) == OrdinaryIds(xs) + (if KindOf(s) == Ordinary then {s.appId} else {})
  {
    assert forall x :: x in xs + [s] <==> x in xs || x == s;
  }

  /** Every ordinary AppID is one some ordinary song has, so there are no
      more of them than ordinary songs. */
  lemma {:induction false} OrdinaryIdsBound(xs: seq<SongData>)
    ensures |OrdinaryIds(xs)| <= Count(xs, OrdinarySong)
    ensures Count(xs, OrdinarySong) > 0 ==> |OrdinaryIds(xs)| > 0
  {
    if xs != [] {
      var init := xs[..|xs| - 1];
      assert xs == init + [xs[|xs| - 1]];
      OrdinaryIdsBound(init);
      OrdinaryIdsSnoc(init, xs[|xs| - 1]);
      CountSnoc(init, xs[|xs| - 1], OrdinarySong);
    }
  }

  /** No song is in more than one of the classes the count adds up. */
  lemma {:induction false} ClassesBound(xs: seq<SongData>)
    ensures Count(xs, FlaggedExercise) + Count(xs, OrdinarySong) + PackFlagged(xs) <= |xs|
  {
    ClassesDisjoint(xs);
  }

  lemma {:induction false} ClassesDisjoint(xs: seq<SongData>)
    ensures Count(xs, FlaggedExercise) + Count(xs, OrdinarySong) + Count(xs, WithAppId(436572)) + Count(xs, WithAppId(294990))
      + Count(xs, WithAppId(390389)) + Count(xs, WithAppId(753836)) <= |xs|
  {
    if xs != [] {
      ClassesDisjoint(xs[..|xs| - 1]);
    }
  }

  /** `Validate` returns a number between 0 and the number of songs, and 0
      for no songs. */
  lemma {:induction false} NonAuthenticBounds(xs: seq<SongData>)
    ensures 0 <= NonAuthentic(xs) <= |xs|
    ensures xs == [] ==> NonAuthentic(xs) == 0
  {
    OrdinaryIdsBound(xs);
    ClassesBound(xs);
  }

  /** The rules one song at a time: a song added to the list changes the
      count as its branch of `Validate` says. */
  lemma {:induction false} NonAuthenticSnoc(xs: seq<SongData>, s: SongData)
    ensures var d := NonAuthentic(xs + [s]) - NonAuthentic(xs);
      match KindOf(s)
      case CompatDisc => d == 0
      case ExercisePack => d == if NoteTrackers(s) then 0 else 1
      case Ordinary => d == if s.appId in OrdinaryIds(xs) then 1 else 0
      case PackOnly =>
        var n := Count(xs, WithAppId(s.appId));
        d == if n < 5 then 0 else if n == 5 then 6 else 1
  {
    CountSnoc(xs, s, FlaggedExercise);
    CountSnoc(xs, s, OrdinarySong);
    OrdinaryIdsSnoc(xs, s);
    PackFlaggedSnoc(xs, s);
    var ids := OrdinaryIds(xs);
    if KindOf(s) != Ordinary {
      assert OrdinaryIds(xs + [s]) == ids;
    } else if s.appId in ids {
      assert OrdinaryIds(xs + [s]) == ids;
    } else {
      assert |OrdinaryIds(xs + [s])| == |ids| + 1;
    }
  }

  /** Only a pack-only song changes the pack-only rule's part of the count. */
  lemma {:induction false} PackFlaggedSnoc(xs: seq<SongData>, s: SongData)
    ensures PackFlagged(xs + [s]) - PackFlagged(xs) ==
      if KindOf(s) != PackOnly then 0
      else
        var n := Count(xs, WithAppId(s.appId));
        if n < 5 then 0 else if n == 5 then 6 else 1
  {
    CountSnoc(xs, s, WithAppId(436572));
    CountSnoc(xs, s, WithAppId(294990));
    CountSnoc(xs, s, WithAppId(390389));
    CountSnoc(xs, s, WithAppId(753836));
  }

  // Order independence.

  lemma {:induction false} CountRemove(xs: seq<SongData>, i: int, t: Tally)
    requires 0 <= i < |xs|
    ensures Count(xs, t) == Count(xs[..i] + xs[i + 1..], t) + (if Counts(xs[i], t) then 1 else 0)
    decreases |xs|
  {
    var n := |xs| - 1;
    if i < n {
      var init := xs[..n];
      var initRest := init[..i] + init[i + 1..];
      var rest := xs[..i] + xs[i + 1..];
      CountRemove(init, i, t);
      assert rest == initRest + [xs[n]] by {
        assert |rest| == |initRest| + 1;
        forall k | 0 <= k < |rest|
          ensures rest[k] == (initRest + [xs[n]])[k]
        {
          if k < i {
            assert rest[k] == xs[k] && initRest[k] == init[k];
          } else if k < n - 1 {
            assert rest[k] == xs[k + 1] && initRest[k] == init[k + 1];
          } else {
            assert rest[k] == xs[n];
          }
        }
      }
      CountSnoc(initRest, xs[n], t);
      assert init[i] == xs[i];
    } else {
      assert xs[i + 1..] == [];
      assert xs[..i] + [] == xs[..n];
    }
  }

  lemma {:induction false} MultisetRemove(xs: seq<SongData>, i: int)
    requires 0 <= i < |xs|
    ensures multiset(xs[..i] + xs[i + 1..]) == multiset(xs) - multiset{xs[i]}
  {
    assert xs == xs[..i] + [xs[i]] + xs[i + 1..];
  }

  lemma {:induction false} MultisetLast(xs: seq<SongData>)
    requires xs != []
    ensures multiset(xs[..|xs| - 1]) == multiset(xs) - multiset{xs[|xs| - 1]}
  {
    assert xs == xs[..|xs| - 1] + [xs[|xs| - 1]];
  }

  /** Each class has as many songs in any reordering of the list. */
  lemma {:induction false} CountPermutation(xs: seq<SongData>, ys: seq<SongData>, t: Tally)
    requires multiset(xs) == multiset(ys)
    ensures Count(xs, t) == Count(ys, t)
    decreases |xs|
  {
    if xs != [] {
      var n := |xs| - 1;
      var s := xs[n];
      assert s in multiset(ys);
      var i :| 0 <= i < |ys| && ys[i] == s;
      var ys' := ys[..i] + ys[i + 1..];
      MultisetRemove(ys, i);
      MultisetLast(xs);
      CountPermutation(xs[..n], ys', t);
      CountRemove(ys, i, t);
    } else {
      assert |ys| == |multiset(ys)| == 0;
    }
  }

  /** The count does not depend on the order of the songs. */
  lemma {:induction false} NonAuthenticPermutation(xs: seq<SongData>, ys: seq<SongData>)
    requires multiset(xs) == multiset(ys)
    ensures NonAuthentic(xs) == NonAuthentic(ys)
  {
    CountPermutation(xs, ys, FlaggedExercise);
    CountPermutation(xs, ys, OrdinarySong);
    CountPermutation(xs, ys, WithAppId(436572));
    CountPermutation(xs, ys, WithAppId(294990));
    CountPermutation(xs, ys, WithAppId(390389));
    CountPermutation(xs, ys, WithAppId(753836));
    assert forall s :: s in xs <==> s in ys by {
      forall s ensures s in xs <==> s in ys {
        assert s in xs <==> s in multiset(xs);
        assert s in ys <==> s in multiset(ys);
      }
    }
    assert OrdinaryIds(xs) == OrdinaryIds(ys);
  }

  // The pack loop runs over the pack dictionary in its own key order.

  lemma {:induction false} PackSumRemove(order: seq<int32>, xs: seq<SongData>, i: int)
    requires 0 <= i < |order|
    ensures PackSum(order, xs) == PackSum(order[..i] + order[i + 1..], xs) + PackExcess(Count(xs, WithAppId(order[i])))
    decreases |order|
  {
    var n := |order| - 1;
    if i < n {
      var init := order[..n];
      PackSumRemove(init, xs, i);
      assert order[..i] + order[i + 1..] == init[..i] + init[i + 1..] + [order[n]];
      assert (init[..i] + init[i + 1..] + [order[n]])[..n - 1] == init[..i] + init[i + 1..];
    } else {
      assert order[..i] + order[i + 1..] == order[..n];
    }
  }

  predicate Distinct(order: seq<int32>) {
    forall i, j :: 0 <= i < j < |order| ==> order[i] != order[j]
  }

  /** Two lists of distinct AppIDs that agree on which AppIDs have more than
      five songs give the same sum. */
  lemma {:induction false} PackSumSame(a: seq<int32>, b: seq<int32>, xs: seq<SongData>)
    requires Distinct(a) && Distinct(b)
    requires forall p :: p in a && Count(xs, WithAppId(p)) > 5 <==> p in b && Count(xs, WithAppId(p)) > 5
    ensures PackSum(a, xs) == PackSum(b, xs)
    decreases |a| + |b|
  {
    if a == [] {
      if b != [] {
        var m := |b| - 1;
        assert Distinct(b[..m]);
        assert forall p :: p in b[..m] ==> p in b;
        PackSumSame(a, b[..m], xs);
      }
    } else {
      var n := |a| - 1;
      var x := a[n];
      assert Distinct(a[..n]);
      assert forall p :: p in a <==> p in a[..n] || p == x;
      assert x !in a[..n];
      if Count(xs, WithAppId(x)) > 5 {
        var i :| 0 <= i < |b| && b[i] == x;
        var b' := b[..i] + b[i + 1..];
        RemoveAt(b, i);
        PackSumSame(a[..n], b', xs);
        PackSumRemove(b, xs, i);
      } else {
        PackSumSame(a[..n], b, xs);
      }
    }
  }

  /** Taking the element at `i` out of a list of distinct AppIDs. */
  lemma {:induction false} RemoveAt(b: seq<int32>, i: int)
    requires Distinct(b) && 0 <= i < |b|
    ensures var b' := b[..i] + b[i + 1..];
      && Distinct(b') && b[i] !in b'
      && forall p :: p in b <==> p in b' || p == b[i]
  {
    var b' := b[..i] + b[i + 1..];
    assert b == b[..i] + [b[i]] + b[i + 1..];
    forall j | 0 <= j < |b'| ensures b'[j] == b[if j < i then j else j + 1] && b'[j] != b[i] {
    }
    forall j, k | 0 <= j < k < |b'| ensures b'[j] != b'[k] {
      assert b'[j] == b[if j < i then j else j + 1] && b'[k] == b[if k < i then k else k + 1];
    }
  }

  // The state of `Validate`'s first loop.

  /** `UniqueAppIds` lists each AppID of the ordinary songs seen once. */
  ghost predicate SeenIds(xs: seq<SongData>, u: seq<int32>) {
    OrdinaryIds(xs) == (set id | id in u) && |u| == |OrdinaryIds(xs)|
  }

  /** `nonAuthenticSongs` holds the flagged exercise-pack songs and the
      ordinary songs whose AppID was seen before. */
  ghost predicate FlaggedSoFar(xs: seq<SongData>, u: seq<int32>, n: int) {
    n == Count(xs, FlaggedExercise) + Count(xs, OrdinarySong) - |u|
  }

  /** `DLCPacks` holds the names of the songs of each pack-only AppID seen,
      and `order` its keys in insertion order. */
  ghost predicate PacksSoFar(xs: seq<SongData>, m: map<int32, seq<string>>, order: seq<int32>) {
    && Distinct(order)
    && (forall p :: p in order <==> p in m)
    && (forall p :: p in m ==> IsPackId(p) && |m[p]| == Count(xs, WithAppId(p)))
    && (forall p :: IsPackId(p) && p !in m ==> Count(xs, WithAppId(p)) == 0)
  }

  function NextIds(u: seq<int32>, s: SongData): seq<int32> {
    if KindOf(s) == Ordinary && s.appId !in u then u + [s.appId] else u
  }

  function Flag(u: seq<int32>, s: SongData): nat {
    if (KindOf(s) == ExercisePack && !NoteTrackers(s)) || (KindOf(s) == Ordinary && s.appId in u) then 1 else 0
  }

  function NextPacks(m: map<int32, seq<string>>, s: SongData): map<int32, seq<string>> {
    if KindOf(s) != PackOnly then m
    else if s.appId in m then m[s.appId := m[s.appId] + [s.commonName]]
    else m[s.appId := [s.commonName]]
  }

  function NextOrder(order: seq<int32>, m: map<int32, seq<string>>, s: SongData): seq<int32> {
    if KindOf(s) == PackOnly && s.appId !in m then order + [s.appId] else order
  }

  lemma {:induction false} StepIds(xs: seq<SongData>, s: SongData, u: seq<int32>)
    requires SeenIds(xs, u)
    ensures SeenIds(xs + [s], NextIds(u, s))
  {
    OrdinaryIdsSnoc(xs, s);
  }

  lemma {:induction false} StepFlagged(xs: seq<SongData>, s: SongData, u: seq<int32>, n: int)
    requires SeenIds(xs, u) && FlaggedSoFar(xs, u, n)
    ensures FlaggedSoFar(xs + [s], NextIds(u, s), n + Flag(u, s))
  {
    CountSnoc(xs, s, FlaggedExercise);
    CountSnoc(xs, s, OrdinarySong);
  }

  lemma {:induction false} StepPacks(xs: seq<SongData>, s: SongData, m: map<int32, seq<string>>, order: seq<int32>)
    requires PacksSoFar(xs, m, order)
    ensures PacksSoFar(xs + [s], NextPacks(m, s), NextOrder(order, m, s))
  {
    var m', o' := NextPacks(m, s), NextOrder(order, m, s);
    forall p ensures Count(xs + [s], WithAppId(p)) == Count(xs, WithAppId(p)) + (if s.appId == p then 1 else 0) {
      CountSnoc(xs, s, WithAppId(p));
    }
    if KindOf(s) == PackOnly && s.appId !in m {
      assert Distinct(o') by {
        forall i, j | 0 <= i < j < |o'| ensures o'[i] != o'[j] {
          assert o'[i] == order[i] && order[i] in order;
        }
      }
      assert forall p :: p in o' <==> p in order || p == s.appId;
    }
  }

  /** The pack loop's sum over the dictionary's keys is the pack-only rule. */
  lemma {:induction false} PackLoopSum(xs: seq<SongData>, m: map<int32, seq<string>>, order: seq<int32>)
    requires PacksSoFar(xs, m, order)
    ensures PackSum(order, xs) == PackFlagged(xs)
  {
    assert Distinct(PackIds);
    assert forall p :: p in PackIds <==> IsPackId(p);
    PackSumSame(order, PackIds, xs);
    PackSumFour(xs);
  }

  /** The second loop of `Validate`: the songs of every pack with more than
      five are added, pack by pack in the dictionary's key order. */
  method AddOversizedPacks(ghost xs: seq<SongData>, dlcPacks: map<int32, seq<string>>, packOrder: seq<int32>, nonAuthenticSongs: seq<string>)
    returns (r: seq<string>)
    requires PacksSoFar(xs, dlcPacks, packOrder)
    ensures |r| == |nonAuthenticSongs| + PackFlagged(xs)
  {
    r := nonAuthenticSongs;
    for k := 0 to |packOrder|
      invariant |r| == |nonAuthenticSongs| + PackSum(packOrder[..k], xs)
    {
      assert packOrder[..k + 1][..k] == packOrder[..k];
      assert packOrder[k] in dlcPacks;
      var pack := dlcPacks[packOrder[k]];
      if |pack| > 5 {
        for j := 0 to |pack|
          invariant |r| == |nonAuthenticSongs| + PackSum(packOrder[..k], xs) + j
        {
          r := r + [pack[j]];
        }
      }
    }
    assert packOrder[..|packOrder|] == packOrder;
    PackLoopSum(xs, dlcPacks, packOrder);
  }

  lemma {:induction false} TakeSnoc(xs: seq<SongData>, i: int)
    requires 0 <= i < |xs|
    ensures xs[..i + 1] == xs[..i] + [xs[i]]
  {
  }

  /** `Validate`. The first loop sorts every song into its branch, keeping
      the ordinary AppIDs seen so far, the songs of each pack-only AppID
      and the non-authentic songs; the second adds the songs of every pack
      with more than five. */
  method Validate(officialSongs: seq<SongData>) returns (count: int)
    ensures count == NonAuthentic(officialSongs)
  {
    var uniqueAppIds: seq<int32> := [];
    var dlcPacks: map<int32, seq<string>> := map[];
    var packOrder: seq<int32> := [];
    var nonAuthenticSongs: seq<string> := [];
    for i := 0 to |officialSongs|
      invariant SeenIds(officialSongs[..i], uniqueAppIds)
      invariant FlaggedSoFar(officialSongs[..i], uniqueAppIds, |nonAuthenticSongs|)
      invariant PacksSoFar(officialSongs[..i], dlcPacks, packOrder)
    {
      var song := officialSongs[i];
      var appId := song.appId;
      ghost var u, n, m, o := uniqueAppIds, |nonAuthenticSongs|, dlcPacks, packOrder;
      StepIds(officialSongs[..i], song, u);
      StepFlagged(officialSongs[..i], song, u, n);
      StepPacks(officialSongs[..i], song, m, o);
      TakeSnoc(officialSongs, i);
      if appId == 258341 && song.rs1AppId == 0 && song.sku == Some("RS1") {
        // the game's RS1 compatibility disc: skipped
        assert KindOf(song) == CompatDisc;
      } else if IsExerciseId(appId) {
        assert KindOf(song) == ExercisePack;
        if !Contains(ToLower(song.commonName), "notetrackers") {
          nonAuthenticSongs := nonAuthenticSongs + [song.commonName];
        }
      } else if IsPackId(appId) {
        assert KindOf(song) == PackOnly;
        if appId in dlcPacks {
          dlcPacks := dlcPacks[appId := dlcPacks[appId] + [song.commonName]];
        } else {
          dlcPacks := dlcPacks[appId := [song.commonName]];
          packOrder := packOrder + [appId];
        }
      } else {
        assert KindOf(song) == Ordinary;
        if appId in uniqueAppIds {
          nonAuthenticSongs := nonAuthenticSongs + [song.commonName];
        } else {
          uniqueAppIds := uniqueAppIds + [appId];
        }
      }
    }
    assert officialSongs[..|officialSongs|] == officialSongs;
    nonAuthenticSongs := AddOversizedPacks(officialSongs, dlcPacks, packOrder, nonAuthenticSongs);
    count := |nonAuthenticSongs|;
  }

  // ------------------------------------------------------------------
  // ExtractSongData

  /** The attributes of one arrangement manifest that the code reads; any
      of the strings can be null, and `DLCRS1Key` is a possibly null list
      whose entries are given by their WIN32 ids. */
  datatype Arrangement = Arrangement(
    songKey: Option<string>,
    artistName: Option<string>,
    songName: Option<string>,
    shipping: bool,
    sku: Option<string>,
    dlcRs1Key: Option<seq<int32>>)

  /** One package file: its AppID, the author in its toolkit info (a null
      author is given as any string other than "Ubisoft") and its
      arrangements. */
  datatype PackageFile = PackageFile(appId: int32, packageAuthor: string, arrangements: seq<Arrangement>)

  /** String interpolation renders null as nothing. */
  function Interpolated(o: Option<string>): string {
    if o.Some? then o.value else ""
  }

  /** `CommonName`: "Artist - Title". */
  function CommonNameOf(a: Arrangement): string {
    Interpolated(a.artistName) + " - " + Interpolated(a.songName)
  }

  /** Glitched arrangements the code skips. A null artist or title is not
      empty, so it is not skipped for that. */
  predicate Glitched(a: Arrangement) {
    || a.songKey.None? || CommonNameOf(a) == "" || CommonNameOf(a) == " - "
    || a.artistName == Some("") || a.songName == Some("") || !a.shipping
  }

  /** What happens to one arrangement before the de-duplication: skipped,
      an exception (`DLCRS1Key[0]` on an empty list, which the `catch`
      around the whole file swallows), or a song. */
  datatype Candidate = Dropped | Throws | Keep(song: SongData)

  function CandidateOf(f: PackageFile, a: Arrangement): Candidate
  {
    if Glitched(a) then Dropped
    else
      var odlc := f.packageAuthor == "Ubisoft";
      var rs1 := a.sku == Some("RS1") && a.dlcRs1Key.Some?;
      if odlc && rs1 && |a.dlcRs1Key.value| == 0 then Throws
      else Keep(SongData(a.songKey.value, f.appId, a.artistName, a.songName, CommonNameOf(a), a.shipping, odlc, a.sku,
                         if odlc && rs1 then a.dlcRs1Key.value[0] else 0))
  }
  /** An arrangement is kept unless it is glitched or throws, and it
      throws exactly when a Ubisoft RS1 arrangement has an empty
      `DLCRS1Key`; the song carries the arrangement's attributes. */
  lemma {:induction false} CandidateSpec(f: PackageFile, a: Arrangement)
    ensures CandidateOf(f, a).Keep? <==> !Glitched(a) && !(f.packageAuthor == "Ubisoft" && a.sku == Some("RS1") && a.dlcRs1Key == Some([]))
    ensures CandidateOf(f, a) == Throws <==> !Glitched(a) && f.packageAuthor == "Ubisoft" && a.sku == Some("RS1") && a.dlcRs1Key == Some([])
    ensures CandidateOf(f, a).Keep? ==>
      && CandidateOf(f, a).song.dlcKey == a.songKey.value && CandidateOf(f, a).song.appId == f.appId
      && CandidateOf(f, a).song.commonName == CommonNameOf(a) && CandidateOf(f, a).song.shipping
      && CandidateOf(f, a).song.artist == a.artistName && CandidateOf(f, a).song.title == a.songName && CandidateOf(f, a).song.sku == a.sku
      && (CandidateOf(f, a).song.odlc <==> f.packageAuthor == "Ubisoft")
      && CandidateOf(f, a).song.rs1AppId == (if CandidateOf(f, a).song.odlc && a.sku == Some("RS1") && a.dlcRs1Key.Some? then a.dlcRs1Key.value[0] else 0)
  {
  }

  /** The songs one file offers, in order: an exception ends the file. */
  function FileSongs(f: PackageFile, arrs: seq<Arrangement>): seq<SongData> {
    if arrs == [] then []
    else match CandidateOf(f, arrs[0])
      case Dropped => FileSongs(f, arrs[1..])
      case Throws => []
      case Keep(s) => [s] + FileSongs(f, arrs[1..])
  }

  /** The songs all files offer, file after file. */
  function Offered(files: seq<PackageFile>): seq<SongData> {
    if files == [] then []
    else Offered(files[..|files| - 1]) + FileSongs(files[|files| - 1], files[|files| - 1].arrangements)
  }

  predicate HasKey(songs: seq<SongData>, key: string) {
    exists k :: 0 <= k < |songs| && songs[k].dlcKey == key
  }

  /** The `Songs` dictionary in insertion order: a song is added unless one
      with its DLC key already is. */
  function Dedupe(xs: seq<SongData>): seq<SongData> {
    if xs == [] then []
    else
      var d := Dedupe(xs[..|xs| - 1]);
      if HasKey(d, xs[|xs| - 1].dlcKey) then d else d + [xs[|xs| - 1]]
  }

  /** The de-duplicated list has the same keys as the songs offered. */
  lemma {:induction false} DedupeKeys(xs: seq<SongData>)
    ensures forall key :: HasKey(Dedupe(xs), key) <==> HasKey(xs, key)
    decreases |xs|
  {
    if xs != [] {
      var n := |xs| - 1;
      var init := xs[..n];
      DedupeKeys(init);
      var d0 := Dedupe(init);
      var d := Dedupe(xs);
      forall key ensures HasKey(d, key) <==> HasKey(xs, key) {
        if HasKey(xs, key) {
          var k :| 0 <= k < |xs| && xs[k].dlcKey == key;
          if k < n {
            assert init[k] == xs[k];
            assert HasKey(init, key);
            var k0 :| 0 <= k0 < |d0| && d0[k0].dlcKey == key;
            assert d[k0] == d0[k0];
          } else if !HasKey(d0, key) {
            assert d[|d0|] == xs[n];
          }
        }
        if HasKey(d, key) {
          var k :| 0 <= k < |d| && d[k].dlcKey == key;
          if k < |d0| {
            assert d[k] == d0[k];
            assert HasKey(d0, key);
            var k0 :| 0 <= k0 < n && init[k0].dlcKey == key;
            assert xs[k0] == init[k0];
          } else {
            assert xs[n].dlcKey == key;
          }
        }
      }
    }
  }

  /** No DLC key occurs twice in the de-duplicated list. */
  lemma {:induction false} DedupeUnique(xs: seq<SongData>)
    ensures forall i, j :: 0 <= i < j < |Dedupe(xs)| ==> Dedupe(xs)[i].dlcKey != Dedupe(xs)[j].dlcKey
    decreases |xs|
  {
    if xs != [] {
      var init := xs[..|xs| - 1];
      DedupeUnique(init);
      var d0 := Dedupe(init);
      var d := Dedupe(xs);
      if d != d0 {
        var last := xs[|xs| - 1];
        assert !HasKey(d0, last.dlcKey) && d == d0 + [last];
        forall i, j | 0 <= i < j < |d| ensures d[i].dlcKey != d[j].dlcKey {
          if j == |d0| {
            assert d[i] == d0[i];
          } else {
            assert d[i] == d0[i] && d[j] == d0[j];
          }
        }
      }
    }
  }

  /** Every song in the de-duplicated list is one offered with no song
      before it having its DLC key. */
  lemma {:induction false} DedupeOrigin(xs: seq<SongData>, s: SongData) returns (i: int)
    requires s in Dedupe(xs)
    ensures 0 <= i < |xs| && xs[i] == s && forall j :: 0 <= j < i ==> xs[j].dlcKey != s.dlcKey
    decreases |xs|
  {
    var n := |xs| - 1;
    var init := xs[..n];
    if s in Dedupe(init) {
      i := DedupeOrigin(init, s);
      assert forall j :: 0 <= j <= i ==> init[j] == xs[j];
    } else {
      i := n;
      DedupeKeys(init);
      assert !HasKey(init, s.dlcKey);
      assert forall j :: 0 <= j < n ==> init[j] == xs[j];
    }
  }

  /** A song offered with no song before it having its DLC key is in the
      de-duplicated list. */
  lemma {:induction false} DedupeKeeps(xs: seq<SongData>, i: int)
    requires 0 <= i < |xs| && forall j :: 0 <= j < i ==> xs[j].dlcKey != xs[i].dlcKey
    ensures xs[i] in Dedupe(xs)
    decreases |xs|
  {
    var n := |xs| - 1;
    var init := xs[..n];
    if i < n {
      DedupeKeeps(init, i);
    } else {
      DedupeKeys(init);
      assert !HasKey(init, xs[i].dlcKey);
    }
  }

  /** First key wins: a song is in the list exactly when it is offered and
      no song offered before it has its DLC key. */
  lemma {:induction false} DedupeFirst(xs: seq<SongData>)
    ensures forall s :: s in Dedupe(xs) <==>
      exists i :: 0 <= i < |xs| && xs[i] == s && forall j :: 0 <= j < i ==> xs[j].dlcKey != s.dlcKey
  {
    forall s | s in Dedupe(xs)
      ensures exists i :: 0 <= i < |xs| && xs[i] == s && forall j :: 0 <= j < i ==> xs[j].dlcKey != s.dlcKey
    {
      var i := DedupeOrigin(xs, s);
    }
    forall i | 0 <= i < |xs| && forall j :: 0 <= j < i ==> xs[j].dlcKey != xs[i].dlcKey
      ensures xs[i] in Dedupe(xs)
    {
      DedupeKeeps(xs, i);
    }
  }

  /** The static `Songs` dictionary, in insertion order. */
  class SongLibrary {
    var songs: seq<SongData>

    constructor ()
      ensures songs == []
    {
      songs := [];
    }

    /** `ExtractSongData`, run over the files one after another: the list is
        cleared, then every arrangement that is not glitched offers its song,
        which is added unless its DLC key is present; an exception ends the
        file it occurs in. The final `Where`/`Distinct`/`ToDictionary`
        changes nothing, for the keys are distinct and not null. */
    method ExtractSongData(files: seq<PackageFile>)
      modifies this
      ensures songs == Dedupe(Offered(files))
    {
      songs := [];
      for i := 0 to |files|
        invariant songs == Dedupe(Offered(files[..i]))
      {
        assert files[..i + 1][..i] == files[..i];
        AddFileSongs(files[i], Offered(files[..i]));
      }
      assert files[..|files|] == files;
    }

    /** The body of the per-file lambda: the arrangements of one file in
        turn, until one throws. */
    method AddFileSongs(file: PackageFile, ghost before: seq<SongData>)
      requires songs == Dedupe(before)
      modifies this
      ensures songs == Dedupe(before + FileSongs(file, file.arrangements))
    {
      var arrs := file.arrangements;
      ghost var total := before + FileSongs(file, arrs);
      assert arrs[0..] == arrs;
      ghost var offered := before;
      var j := 0;
      while j < |arrs|
        invariant 0 <= j <= |arrs|
        invariant offered + FileSongs(file, arrs[j..]) == total
        invariant songs == Dedupe(offered)
      {
        var candidate := CandidateOf(file, arrs[j]);
        OfferedStep(file, arrs, j, offered, total);
        if candidate.Throws? {
          return;
        }
        if candidate.Keep? {
          var song := candidate.song;
          DedupeSnoc(offered, song);
          if !HasKey(songs, song.dlcKey) {
            songs := songs + [song];
          }
          offered := offered + [song];
        }
        j := j + 1;
      }
      assert arrs[j..] == [] && offered + [] == offered;
      assert offered == total;
    }
  }

  /** Helper: one arrangement more in `AddFileSongs`' account: a dropped record
      offers nothing, a kept one offers its song, and one that throws ends
      the file with nothing more offered. */
  lemma {:induction false} OfferedStep(f: PackageFile, arrs: seq<Arrangement>, j: int, offered: seq<SongData>, total: seq<SongData>)
    requires 0 <= j < |arrs| && offered + FileSongs(f, arrs[j..]) == total
    ensures CandidateOf(f, arrs[j]).Throws? ==> offered == total
    ensures CandidateOf(f, arrs[j]).Dropped? ==> offered + FileSongs(f, arrs[j + 1..]) == total
    ensures CandidateOf(f, arrs[j]).Keep? ==> (offered + [CandidateOf(f, arrs[j]).song]) + FileSongs(f, arrs[j + 1..]) == total
  {
    var later := FileSongs(f, arrs[j + 1..]);
    FileSongsFrom(f, arrs, j);
    match CandidateOf(f, arrs[j])
    case Throws =>
      assert offered + [] == offered;
    case Dropped =>
    case Keep(song) =>
      assert (offered + [song]) + later == offered + ([song] + later);
  }

  /** Helper: the songs the arrangements from `j` on offer: those of `arrs[j]`
      followed by the rest's, or none when `arrs[j]` throws. */
  lemma {:induction false} FileSongsFrom(f: PackageFile, arrs: seq<Arrangement>, j: int)
    requires 0 <= j < |arrs|
    ensures FileSongs(f, arrs[j..]) ==
      match CandidateOf(f, arrs[j])
      case Dropped => FileSongs(f, arrs[j + 1..])
      case Throws => []
      case Keep(s) => [s] + FileSongs(f, arrs[j + 1..])
  {
    assert arrs[j..][0] == arrs[j] && arrs[j..][1..] == arrs[j + 1..];
  }

  /** One more song offered to the dictionary. */
  lemma {:induction false} DedupeSnoc(xs: seq<SongData>, s: SongData)
    ensures Dedupe(xs + [s]) == if HasKey(Dedupe(xs), s.dlcKey) then Dedupe(xs) else Dedupe(xs) + [s]
  {
    assert (xs + [s])[..|xs|] == xs;
  }

  /** An exception ends the file: the arrangements after one that throws
      offer nothing. */
  lemma {:induction false} FileSongsCut(f: PackageFile, arrs: seq<Arrangement>, k: nat)
    requires k < |arrs| && CandidateOf(f, arrs[k]).Throws?
    ensures FileSongs(f, arrs) == FileSongs(f, arrs[..k + 1])
  {
    if k > 0 && !CandidateOf(f, arrs[0]).Throws? {
      assert arrs[..k + 1][0] == arrs[0] && arrs[..k + 1][1..] == arrs[1..][..k];
      FileSongsCut(f, arrs[1..], k - 1);
    }
  }
}
