# RSDiagnostics core in Dafny

RSDiagnostics is a Windows helper for Rocksmith 2014. It reads and rewrites
the game's two configuration files, checks the RS_ASIO audio set-up, counts
official songs that look pirated, recognises the installed D3DX9_42.dll
and dumps what it found into a log. This project models that logic in
Dafny and proves what it promises:

- `IniCommon`: what both INI stores share.
  - Values (`IntV`/`StrV`) and the `int.TryParse` coercion.
  - A setting's snapshot (`View`).
  - Grouping by section in first-appearance order, and the
    `WriteSettingsFile` serialiser with its `changedSettings` replacement.
- `AsioSettings` / `AsioRoundTrip`: the RS_ASIO.ini store.
  - A nested section → name → value cache.
  - `ReadPreviousSetting`, the `Value` setter, `Where`, and the 26
    registered settings.
  - The parser/serialiser round trip, headers and the comment block.
- `RocksmithSettings` / `RocksmithRoundTrip`: the Rocksmith.ini store.
  - A flat name → value cache where a repeated name throws.
  - The 25 registered settings, and its round trip.
- `AsioVerify`: `VerifySettings`.
  - The Focusrite buffer fix, the WASAPI output flag and the ASIO device
    check.
- `SongManager`: `Validate`, the non-authentic counter, and the
  record filter and first-key-wins dedupe of `ExtractSongData`.
- `DllCheck`: `MainForm.ValidCdlcDLL` and `DLLType`.
- `GenUtil`:
  - `StrToIntDef` and `GetSettingsPairs`;
  - the `libraryfolders.vdf` scan and the first-match game-folder
    search;
  - the default-browser rule.
- `DiagLog`: the two INI dumps and the song summary of `Log`.
- `AssemblyResolve`: the resource-name normalisation of
  `ResolveEmbededAssembly` and the resource lookup it performs.
- `Text`, `Wrappers`: .NET string helpers (`IndexOf`, `Contains`,
  `Trim`, `Replace`, `ToLower`, `int.TryParse`, `ToString`) and
  `Option`/`Result`.

Files are sequences of lines. Every .NET exception the INI, verification
and song code can raise is an `IniError` or another error value in a
`Result`; the path helpers of `GenUtil` model none (see "## Left out"). The
static `LoadedSettings` list and `SettingsFile_Cache` dictionary are fields
of a store object (`AsioStore`, `RsStore`), and each `Settings` object is a
class whose setter updates those fields in place.

## Model

| member | source | states |
|---|---|---|
| IniCommon.CoerceKeepsInt | Settings/Asio/Settings.cs:154-155 | an int value read back from the cache stays the same int |
| IniCommon.CoerceString | Settings/Asio/Settings.cs:154-157 | a cached text becomes an int exactly when it parses as an Int32 (trailing NUL characters included), and is returned unchanged otherwise |
| IniCommon.CoerceNulPadded | Settings/Asio/Settings.cs:154-155 | a number's text followed by NUL characters is still cached as that number |
| IniCommon.CoerceOfWritten | Settings/Rocksmith/Settings.cs:123-126 | coercing the text a value is written as gives the same result as coercing the value itself |
| IniCommon.CoerceIdempotent | Settings/Rocksmith/Settings.cs:123-126 | coercing twice changes nothing |
| IniCommon.SectionOrderMembers | Settings/Asio/LoadSettings.cs:79-87 | the section list built while grouping holds exactly the sections some setting has |
| IniCommon.SectionOrderDistinct | Settings/Asio/LoadSettings.cs:83-86 | each section is listed once |
| IniCommon.SectionOrderBlock | Settings/Rocksmith/LoadSettings.cs:72-78 | a run of settings in a new section adds that section once, at the end |
| IniCommon.ContiguousBlock | Settings/Rocksmith/LoadSettings.cs:18-47 | appending a run of a fresh section keeps every section contiguous |
| IniCommon.LayoutStep | Settings/Asio/LoadSettings.cs:20-56 | one more run of the registered list extends the section order by its section and stays contiguous |
| IniCommon.GroupSpec | Settings/Asio/LoadSettings.cs:81-87 | a section's group holds only settings of that section, and is non-empty iff some setting has that section |
| IniCommon.FindIndexSpec | Settings/Asio/LoadSettings.cs:90 | `FindIndex` gives the first setting of the group with that name, or -1 when there is none |
| IniCommon.PrefixStep | Settings/Asio/LoadSettings.cs:81-87 | one more loop iteration appends the setting to its group and adds its section only when it is new |
| IniCommon.GroupMapStep | Settings/Asio/LoadSettings.cs:83-86 | one more loop iteration appends to an existing group or adds a one-element group |
| IniCommon.GroupMapAt | Settings/Rocksmith/LoadSettings.cs:74-77 | after an iteration each group is its old contents plus the setting when it belongs there |
| IniCommon.GroupBySection | Settings/Asio/LoadSettings.cs:79-87 | the grouping loop yields the first-appearance section order and the list-order groups |
| IniCommon.EmitSection | Settings/Asio/LoadSettings.cs:94-113 | one section is written as its header, the buffer-mode comments when it is `Asio` in RS_ASIO.ini, and one `name=value` line per setting, defaults standing in for null values |
| IniCommon.SerializeSettings | Settings/Asio/LoadSettings.cs:79-114 | the serialiser's lines are the file the specification renders, or the error the `changedSettings` replacement raises |
| IniCommon.EmitSections | Settings/Rocksmith/LoadSettings.cs:83-94 | the section loop writes every group in the order the sections were first seen |
| IniCommon.FirstAt | Settings/Asio/LoadSettings.cs:89-90 | the index found is -1 or a setting with that section and name |
| IniCommon.FirstAtSpec | Settings/Asio/LoadSettings.cs:89-90 | no earlier setting has that section and name |
| IniCommon.FindIndexAppend | Settings/Asio/LoadSettings.cs:90 | searching a concatenation finds the first part's match before the second's |
| IniCommon.GroupFindIndex | Settings/Asio/LoadSettings.cs:90 | the name's index inside its section's group is the number of earlier same-section settings before its first occurrence |
| IniCommon.GroupReplace | Settings/Asio/LoadSettings.cs:90 | replacing one setting of the list replaces the matching slot of its own group and leaves the other groups alone |
| IniCommon.SectionOrderReplace | Settings/Rocksmith/LoadSettings.cs:81 | replacing a setting by one of the same section keeps the section order |
| IniCommon.GroupMapReplace | Settings/Rocksmith/LoadSettings.cs:81 | the grouping of the list with one setting replaced is the old grouping with that group slot replaced |
| IniCommon.ChangedFound | Settings/Asio/LoadSettings.cs:89-90 | when the section holds the name, the file written is the one for the list with its first such setting replaced |
| IniCommon.ChangedNoSection | Settings/Asio/LoadSettings.cs:90 | a changed setting whose section has no settings raises KeyNotFound for that section |
| IniCommon.ChangedNoName | Settings/Rocksmith/LoadSettings.cs:81 | a changed setting whose section lacks the name fails on the index -1 |
| IniCommon.ChangedReplacesFirst | Settings/Asio/LoadSettings.cs:89-90 | the write fails iff no setting has the changed section and name, with KeyNotFound or a bad index; otherwise the first such setting is replaced before writing |
| IniCommon.RegisteredViews | Settings/Asio/LoadSettings.cs:20-56 | the k-th registered setting has the table's section, name and default and the value read for it |
| IniCommon.CoercedAllAt | Settings/Asio/Settings.cs:77-80 | each registered value is the coerced read, or null when the file is not valid |
| AsioSettings.ErrorSticks | Settings/Asio/Settings.cs:99-128 | once a line has thrown, no later line changes the cache |
| AsioSettings.PutNameAnywhere | Settings/Asio/Settings.cs:116-127 | after a key line the name is found in some section iff it was before or is the line's name |
| AsioSettings.FirstMatch | Settings/Asio/Settings.cs:40-41 | `.Where(..).First()` picks a registered setting with that section and name, or none |
| AsioSettings.FirstMatchSpec | Settings/Asio/Settings.cs:40-41 | it is the first such setting, and none is found only when none exists |
| AsioSettings.WhereInMembers | Settings/Asio/Settings.cs:172 | `Where` returns exactly the registered settings with that section and name |
| AsioSettings.WhereInFirst | Settings/Asio/Settings.cs:172 | the head of `Where`'s list is the setting `First()` picks |
| AsioSettings.ViewsOf | Settings/Asio/LoadSettings.cs:81 | the snapshot list follows `LoadedSettings` element by element |
| AsioSettings.AsioSetting.constructor | Settings/Asio/Settings.cs:68-73 | a new setting has its section, name and default, no value, and `alreadyInit` set |
| AsioSettings.AsioSetting.SetValue | Settings/Asio/Settings.cs:30-50 | the first assignment only stores the value and clears `alreadyInit`; a later one, on a valid file, updates the first same section/name entry when it differs and rewrites the file; an invalid file still rewrites it |
| AsioSettings.AsioSetting.Store | Settings/Asio/Settings.cs:35-47 | the value is stored and `alreadyInit` cleared |
| AsioSettings.AsioSetting.Propagate | Settings/Asio/Settings.cs:38-44 | write-back to the first matching entry, then the file rewrite; no matching entry throws |
| AsioSettings.AsioSetting.SyncFirst | Settings/Asio/Settings.cs:38-42 | the first matching entry gets the value only when it holds a different one; no match throws |
| AsioSettings.AsioStore.constructor | Settings/Asio/LoadSettings.cs:64-69 | the static list and cache start empty |
| AsioSettings.AsioStore.Where | Settings/Asio/Settings.cs:172 | every returned setting is registered with that section and name, and every such setting is returned |
| AsioSettings.AsioStore.WriteSettingsFile | Settings/Asio/LoadSettings.cs:75-116 | the file is replaced by the rendering of the current settings, or the changed-setting error is raised; settings and cache are untouched |
| AsioSettings.AsioStore.ReadPreviousSetting | Settings/Asio/Settings.cs:90-164 | cache and result are those of the read specification: parse once on an empty cache, insert a missing default, read back, coerce |
| AsioSettings.AsioStore.ReadFile | Settings/Asio/Settings.cs:96-128 | the line loop fills the cache as the parser does, stops at the first throwing line, and reports whether the name occurs in any section |
| AsioSettings.AsioStore.ReadCached | Settings/Asio/Settings.cs:141-163 | the cached branch, including the default stored under the setting's own name when the section is missing |
| AsioSettings.AsioStore.NewSetting | Settings/Asio/Settings.cs:68-82 | a new setting reads its value, or keeps none when the file is not valid, and a read error propagates |
| AsioSettings.AsioStore.Register | Settings/Asio/LoadSettings.cs:21 | one `LoadedSettings.Add(new Settings(..))` appends exactly one setting built from the registration step |
| AsioSettings.AsioStore.Load | Settings/Asio/LoadSettings.cs:15-58 | the constructor registers the 26 settings in table order with their read values, then writes the file once; every value is found in the cache |
| AsioSettings.AsioStore.LoadTable | Settings/Asio/LoadSettings.cs:17-58 | registering any table then writing once yields the table's settings with their coerced reads |
| AsioSettings.AsioStore.RegisterAll | Settings/Asio/LoadSettings.cs:17-56 | the registration loop's list and cache are those of the fold over the table |
| AsioSettings.AsioStore.AccountedAll | Settings/Asio/LoadSettings.cs:17-56 | when every row is accounted for, the store holds exactly the folded registration |
| AsioSettings.AsioStore.RegisterNext | Settings/Asio/LoadSettings.cs:21-56 | one more row either fails as the fold fails or extends the accounted prefix |
| AsioSettings.RegistrationOutcome | Settings/Asio/LoadSettings.cs:17-56 | a successful registration has one value per row; on a valid file all are cached and a fresh parse is kept; otherwise every value is null and the cache untouched |
| AsioSettings.RegistrationHeld | Settings/Asio/Settings.cs:130-150 | on a valid file every registered value is what the cache holds for its section and name |
| AsioSettings.RegistrationDefaults | Settings/Asio/Settings.cs:75 | on an invalid file registration never reads and never fails |
| AsioSettings.RegistrationParsed | Settings/Asio/Settings.cs:93-138 | registration on an empty cache keeps everything the file parse put in it |
| AsioSettings.RegistrationFails | Settings/Asio/LoadSettings.cs:21-56 | an exception while registering one row ends the whole constructor with that exception |
| AsioSettings.InsertDefaultKeeps | Settings/Asio/Settings.cs:130-136 | inserting a default only adds to the cache |
| AsioSettings.CachedReadKeeps | Settings/Asio/Settings.cs:145-148 | the cached branch only adds to the cache |
| AsioSettings.ReadSpecKeeps | Settings/Asio/Settings.cs:90-164 | a read only adds to the cache |
| AsioSettings.ReadSpecFound | Settings/Asio/Settings.cs:150 | a successful read returns what the cache now holds under that section and name |
| AsioSettings.ReadSpecParsed | Settings/Asio/Settings.cs:93-138 | a successful first read keeps every entry the file parse produced |
| AsioRoundTrip.ClassifyLineSpec | Settings/Asio/Settings.cs:103-114 | blank and `;` lines are skipped; `[..]` lines set the section to the text between the first and last character; a key line splits at the first `=` with nothing trimmed; a line without `=` throws |
| AsioRoundTrip.PutLookup | Settings/Asio/Settings.cs:116-124 | storing a key line makes it the value under its section and name and changes no other entry |
| AsioRoundTrip.InsertDefaultSpec | Settings/Asio/Settings.cs:130-136 | after the first read the cache is non-empty; the default is added only when the name was seen in no section |
| AsioRoundTrip.CachedReadMissingSection | Settings/Asio/Settings.cs:145-150 | on a non-empty cache without the section, the default goes under the setting's name as a section and the read throws KeyNotFound |
| AsioRoundTrip.MissingSectionExample | Settings/Asio/Settings.cs:145-150 | a concrete cache where reading `[Asio.Output] Driver` throws KeyNotFound |
| AsioRoundTrip.ParseAppend | Settings/Asio/Settings.cs:99-128 | the line loop over two parts is the loop over the second part from the state after the first |
| AsioRoundTrip.EntryLineReads | Settings/Asio/LoadSettings.cs:109-112 | a written `name=value` line reads back as that name and value text |
| AsioRoundTrip.HeaderReads | Settings/Asio/LoadSettings.cs:94 | a written `[S]` line reads back as section S |
| AsioRoundTrip.ParseEntries | Settings/Asio/Settings.cs:116-124 | reading a group's lines stores each setting under the current section |
| AsioRoundTrip.ParseSkipped | Settings/Asio/Settings.cs:103-104 | comment and blank lines leave the parse state unchanged |
| AsioRoundTrip.ParseComments | Settings/Asio/LoadSettings.cs:102-105 | the buffer-mode comment block is invisible to the parser |
| AsioRoundTrip.ParseBlock | Settings/Asio/LoadSettings.cs:94-113 | reading one written section stores all its settings under it |
| AsioRoundTrip.PutAllLookup | Settings/Asio/Settings.cs:118-121 | after a group is stored, a name of that section holds its last value in the group |
| AsioRoundTrip.GroupLastNamed | Settings/Asio/LoadSettings.cs:81-87 | the last same-named entry of a section's group is the last such setting of the whole list |
| AsioRoundTrip.ParseGroups | Settings/Asio/LoadSettings.cs:92-114 | reading all written sections never throws and leaves each name holding its last value |
| AsioRoundTrip.RoundTrip | Settings/Asio/LoadSettings.cs:92-113 | for settings whose names, sections and written texts break no line, parsing the written file never throws, and each section/name reads back the text of its last setting |
| AsioRoundTrip.GroupMembers | Settings/Asio/LoadSettings.cs:81-87 | every grouped setting comes from the list |
| AsioRoundTrip.NoSectionNothingStored | Settings/Asio/Settings.cs:116-124 | a section no setting uses reads back nothing |
| AsioRoundTrip.LastStoredAt | Settings/Asio/LoadSettings.cs:109-112 | with distinct section/name pairs, each setting is what is stored for its pair |
| AsioRoundTrip.EntryLinesUnmarked | Settings/Asio/LoadSettings.cs:109-112 | a setting line is neither a header nor a comment |
| AsioRoundTrip.CommentsMarked | Settings/Asio/LoadSettings.cs:102-105 | the comment block is four `;` lines and no header |
| AsioRoundTrip.BlockMarked | Settings/Asio/LoadSettings.cs:94-107 | one written section has exactly its own header, and the comments only when it is a non-empty `Asio` section of RS_ASIO.ini |
| AsioRoundTrip.RenderGroupsHeaders | Settings/Asio/LoadSettings.cs:92-94 | the headers of the written sections are one per section, in order |
| AsioRoundTrip.RenderGroupsComments | Settings/Asio/LoadSettings.cs:96-107 | the comment block appears once, in the `Asio` section, or not at all |
| AsioRoundTrip.HasSection | Settings/Asio/LoadSettings.cs:81-87 | a section is listed with a non-empty group iff some setting belongs to it |
| AsioRoundTrip.RenderHeaders | Settings/Asio/LoadSettings.cs:79-94 | the written file's `[S]` lines are exactly one per section, in first-appearance order |
| AsioRoundTrip.RenderComments | Settings/Asio/LoadSettings.cs:96-107 | the written file's `;` lines are the comment block once when some setting is in `Asio`, and none otherwise |
| AsioRoundTrip.RegisteredKeysDistinct | Settings/Asio/LoadSettings.cs:20-56 | no two registered settings share a section and name |
| AsioRoundTrip.RegisteredLayout | Settings/Asio/LoadSettings.cs:20-56 | the 26 registered settings come in the six sections Config, Asio, Asio.Output, Asio.Input.0, Asio.Input.1, Asio.Input.Mic, each contiguous |
| AsioRoundTrip.RegisteredPrefix | Settings/Asio/LoadSettings.cs:20-56 | the first b runs of the table cover the first b sections, contiguously |
| AsioRoundTrip.RegisteredRuns | Settings/Asio/LoadSettings.cs:20-56 | the table's section for each of its 26 rows |
| AsioRoundTrip.RegisteredReadable | Settings/Asio/LoadSettings.cs:20-56 | every registered name has no `=` and no line break, and starts with neither `;` nor `[` |
| AsioRoundTrip.RegisteredFileReads | Settings/Asio/LoadSettings.cs:58 | whatever values without line breaks the settings hold, the file the constructor writes parses without error and every registered setting reads back its written text |
| RocksmithSettings.ErrorSticks | Settings/Rocksmith/Settings.cs:95-105 | once a line has thrown, no later line changes the cache |
| RocksmithSettings.FirstNamed | Settings/Rocksmith/Settings.cs:39-40 | the setter's `.First()` picks a setting with that name, whatever its section, or none |
| RocksmithSettings.FirstNamedSpec | Settings/Rocksmith/Settings.cs:39-40 | it is the first setting with that name, and none only when none exists |
| RocksmithSettings.ViewsOf | Settings/Rocksmith/LoadSettings.cs:72 | the snapshot list follows `LoadedSettings` element by element |
| RocksmithSettings.RsSetting.constructor | Settings/Rocksmith/Settings.cs:66-71 | a new setting has its section, name and default, no value, and `alreadyInit` set |
| RocksmithSettings.RsSetting.SetValue | Settings/Rocksmith/Settings.cs:29-48 | the first assignment only stores; a later one updates the first same-named entry, ignoring sections, when it differs and rewrites the file |
| RocksmithSettings.RsSetting.Store | Settings/Rocksmith/Settings.cs:34-46 | the value is stored and `alreadyInit` cleared |
| RocksmithSettings.RsSetting.Propagate | Settings/Rocksmith/Settings.cs:37-43 | write-back to the first same-named entry, then the file rewrite; no match throws |
| RocksmithSettings.RsSetting.SyncFirst | Settings/Rocksmith/Settings.cs:37-41 | the first same-named entry gets the value only when it holds a different one |
| RocksmithSettings.RsStore.constructor | Settings/Rocksmith/LoadSettings.cs:55-60 | the static list and cache start empty |
| RocksmithSettings.RsStore.Where | Settings/Rocksmith/Settings.cs:140 | `Where` returns the first setting with that name and throws when there is none |
| RocksmithSettings.RsStore.WriteSettingsFile | Settings/Rocksmith/LoadSettings.cs:66-96 | the file is replaced by the rendering of the current settings, or the changed-setting error is raised |
| RocksmithSettings.RsStore.ReadPreviousSetting | Settings/Rocksmith/Settings.cs:87-133 | cache and result are those of the flat read specification |
| RocksmithSettings.RsStore.ReadFile | Settings/Rocksmith/Settings.cs:92-105 | the line loop fills the flat cache as the parser does, stops at the first throwing line, and reports whether the name was added |
| RocksmithSettings.RsStore.NewSetting | Settings/Rocksmith/Settings.cs:66-80 | a new setting reads its value, or keeps none when the file is not valid; a read error propagates |
| RocksmithSettings.RsStore.Register | Settings/Rocksmith/LoadSettings.cs:19 | one `Add(new Settings(..))` appends exactly one setting built from the registration step |
| RocksmithSettings.RsStore.Load | Settings/Rocksmith/LoadSettings.cs:14-50 | the constructor registers the 25 settings with their read values, then writes the file once |
| RocksmithSettings.RsStore.LoadTable | Settings/Rocksmith/LoadSettings.cs:16-49 | registering any table then writing once yields its settings with their coerced reads |
| RocksmithSettings.RsStore.RegisterAll | Settings/Rocksmith/LoadSettings.cs:16-47 | the registration loop's list and cache are those of the fold over the table |
| RocksmithSettings.RsStore.AccountedAll | Settings/Rocksmith/LoadSettings.cs:16-47 | when every row is accounted for, the store holds exactly the folded registration |
| RocksmithSettings.RsStore.RegisterNext | Settings/Rocksmith/LoadSettings.cs:19-47 | one more row either fails as the fold fails or extends the accounted prefix |
| RocksmithSettings.ReadSpecTwice | Settings/Rocksmith/Settings.cs:73-79 | after a successful read the name is cached, and reading it again returns the same value and leaves the cache unchanged |
| RocksmithSettings.RegistrationOutcome | Settings/Rocksmith/LoadSettings.cs:16-47 | a successful registration has one value per row; on a valid file all are cached; otherwise every value is null |
| RocksmithSettings.RegistrationHeld | Settings/Rocksmith/Settings.cs:107-119 | on a valid file every registered value is what the cache holds for its name |
| RocksmithSettings.RegistrationDefaults | Settings/Rocksmith/Settings.cs:73 | on an invalid file registration never reads and never fails |
| RocksmithSettings.RegistrationParsed | Settings/Rocksmith/Settings.cs:90-110 | registration on an empty cache keeps everything the file parse put in it |
| RocksmithSettings.RegistrationFails | Settings/Rocksmith/LoadSettings.cs:19-47 | an exception while registering one row ends the constructor with that exception |
| RocksmithRoundTrip.ClassifyLineSpec | Settings/Rocksmith/Settings.cs:97-101 | blank and `[` lines are skipped; a key line splits at the first `=`, untrimmed; any other line, `;` comments included, throws |
| RocksmithRoundTrip.ParseAppend | Settings/Rocksmith/Settings.cs:95-105 | the line loop over two parts is the loop over the second from the state after the first |
| RocksmithRoundTrip.EntryLineReads | Settings/Rocksmith/LoadSettings.cs:89-92 | a written `name=value` line reads back as that name and value text |
| RocksmithRoundTrip.StoredKeys | Settings/Rocksmith/Settings.cs:101 | the cache built from a list of lines has exactly their names as keys |
| RocksmithRoundTrip.StoredAt | Settings/Rocksmith/Settings.cs:101 | with unique names each setting's text is stored under its name |
| RocksmithRoundTrip.ParseEntries | Settings/Rocksmith/Settings.cs:100-101 | reading setting lines throws, always a duplicate key, iff a name repeats or is already cached; otherwise it adds them all |
| RocksmithRoundTrip.ParseGroups | Settings/Rocksmith/Settings.cs:97-98 | with headers skipped, the written sections read as their settings in group order |
| RocksmithRoundTrip.ConcatInsert | Settings/Rocksmith/LoadSettings.cs:74-75 | adding a setting to one group adds its name once to the grouped names |
| RocksmithRoundTrip.ConcatInsertViews | Settings/Rocksmith/LoadSettings.cs:74-75 | adding a setting to one group adds it once to the grouped list |
| RocksmithRoundTrip.GroupedPermutes | Settings/Rocksmith/LoadSettings.cs:70-78 | grouping by section only reorders the settings |
| RocksmithRoundTrip.RoundTrip | Settings/Rocksmith/LoadSettings.cs:83-94 | for settings whose names, sections and written texts break no line, parsing the written file throws, always a duplicate key, iff two settings share a name; otherwise every name reads back its written text and nothing else is cached |
| RocksmithRoundTrip.ReadListing | Settings/Rocksmith/Settings.cs:95-105 | any reordering of the settings reads back the same way |
| RocksmithRoundTrip.UniqueNamesPairwise | Settings/Rocksmith/Settings.cs:101 | names are unique as a multiset iff no two settings share one |
| RocksmithRoundTrip.RenderLength | Settings/Rocksmith/LoadSettings.cs:83-94 | the file has one line per section plus one per setting, and no comments |
| RocksmithRoundTrip.RenderGroupsLength | Settings/Rocksmith/LoadSettings.cs:83-94 | the written sections have one header each plus their settings |
| RocksmithRoundTrip.RegisteredLayout | Settings/Rocksmith/LoadSettings.cs:18-47 | the 25 registered settings are in the sections Audio, Renderer.Win32, Net, each contiguous |
| RocksmithRoundTrip.RegisteredRuns | Settings/Rocksmith/LoadSettings.cs:18-47 | the table's section for each of its 25 rows |
| RocksmithRoundTrip.RegisteredNamesDistinct | Settings/Rocksmith/LoadSettings.cs:19-47 | no two registered settings share a name, across all sections |
| RocksmithRoundTrip.RegisteredReadable | Settings/Rocksmith/LoadSettings.cs:19-47 | every registered name has no `=` and no line break, and does not start with `[` |
| RocksmithRoundTrip.RegisteredFileReads | Settings/Rocksmith/LoadSettings.cs:49 | whatever values without line breaks the settings hold, the file the constructor writes parses without error and every registered setting reads back its written text |
| AsioVerify.Find | Settings/Asio/VerifySettings.cs:36-37 | `Where(..).Count > 0 ? First() : null` is the first matching setting or null |
| AsioVerify.DriverSlots | Settings/Asio/VerifySettings.cs:29-34 | the four driver slots are the Output, Input.0, Input.1 and Input.Mic `Driver` settings, in that order |
| AsioVerify.Assign | Settings/Asio/VerifySettings.cs:60 | assigning through a found setting stores the value, changes no other setting and rewrites the file unless it is the first assignment |
| AsioVerify.ScanAsks | Settings/Asio/VerifySettings.cs:43-64 | the user is asked only when the buffer needs fixing and some driver names a Focusrite; the fix happens iff the last question was accepted, and every earlier one was declined |
| AsioVerify.ScanQuiet | Settings/Asio/VerifySettings.cs:49 | when the mode is not `custom` or the size is a multiple of 48, no question is asked and nothing changes |
| AsioVerify.ScanDeclined | Settings/Asio/VerifySettings.cs:49-63 | when every question is declined, one is asked per Focusrite driver and nothing changes |
| AsioVerify.FixFocusriteBuffer | Settings/Asio/VerifySettings.cs:27-65 | nothing happens when either buffer setting is missing; otherwise the outcome is that of the device scan, and an accepted fix sets CustomBufferSize to 48 and touches nothing else |
| AsioVerify.ScanDevices | Settings/Asio/VerifySettings.cs:43-64 | the device loop, with its `break`, computes the scan specification |
| AsioVerify.WasapiPlan | Settings/Asio/VerifySettings.cs:134-140 | an absent setting is left alone; a value that is not an int throws; an assignment happens iff the value differs from the answer's target |
| AsioVerify.CheckWasapiState | Settings/Asio/VerifySettings.cs:121-142 | afterwards EnableWasapiOutputs holds 1 for "Yes" and 0 for "No" when it exists; other settings and the file change only when an assignment happens |
| AsioVerify.ConfiguredSpec | Settings/Asio/VerifySettings.cs:73-87 | the driver table holds one entry per present, non-empty driver under its label, and a null driver value throws |
| AsioVerify.ReportSpec | Settings/Asio/VerifySettings.cs:92-115 | a device-not-found notice names exactly the labels whose driver is not installed, and the ASIO4All warning fires exactly for ASIO4All drivers |
| AsioVerify.VerifyDevices | Settings/Asio/VerifySettings.cs:70-116 | the check reports the notices of the device table, or the exception building it throws |
| AsioVerify.FindDevice | Settings/Asio/VerifySettings.cs:94-106 | the inner loop finds the driver iff an installed device has exactly that name |
| AsioVerify.MissingDriverSpec | Settings/Asio/VerifySettings.cs:80-114 | a label is reported missing iff its driver is set, non-empty and not installed |
| AsioVerify.Asio4AllSpec | Settings/Asio/VerifySettings.cs:80-97 | the ASIO4All warning fires iff some set driver contains `asio4all`, ignoring case |
| AsioVerify.DriverCheckSpec | Settings/Asio/VerifySettings.cs:70-116 | the device check fails iff a driver value is null, and otherwise reports exactly the missing and ASIO4All drivers |
| AsioVerify.Verify | Settings/Asio/VerifySettings.cs:17-22 | the three checks run in the constructor's order; the notices are the device report and the WASAPI flag ends at the answer's target |
| SongManager.NonAuthenticBounds | SongManager.cs:106-162 | the count is between 0 and the number of songs, and 0 for none |
| SongManager.NonAuthenticSnoc | SongManager.cs:113-160 | one more song adds 0 for the compat disc, 1 for an exercise-pack song without `notetrackers`, 1 for a repeated ordinary AppID, and 6 then 1 for the sixth and later songs of a pack-only AppID |
| SongManager.NonAuthenticPermutation | SongManager.cs:113-160 | the count does not depend on the order of the songs |
| SongManager.OrdinaryIdsBound | SongManager.cs:139-147 | the distinct ordinary AppIDs are at most the ordinary songs, and at least one when there is one |
| SongManager.ClassesBound | SongManager.cs:113-160 | flagged exercise songs, repeated ordinary songs and oversized packs together never exceed the input |
| SongManager.ClassesDisjoint | SongManager.cs:117-147 | the rule classes do not overlap |
| SongManager.PackFlaggedSnoc | SongManager.cs:131-137 | a pack-only song adds nothing up to five per AppID, then 6, then 1 each |
| SongManager.CountPermutation | SongManager.cs:113-148 | each per-rule tally is order-independent |
| SongManager.PackSumFour | SongManager.cs:150-160 | summing the oversized packs over the four pack AppIDs gives the pack contribution |
| SongManager.PackSumSame | SongManager.cs:151-160 | the pack loop's total does not depend on dictionary order |
| SongManager.StepIds | SongManager.cs:141-146 | `UniqueAppIds` keeps the ordinary AppIDs seen so far |
| SongManager.StepFlagged | SongManager.cs:118-147 | one iteration of the first loop adds the song's own contribution to `nonAuthenticSongs` |
| SongManager.StepPacks | SongManager.cs:131-137 | `DLCPacks` keeps the pack-only songs seen so far, per AppID, in first-appearance order |
| SongManager.PackLoopSum | SongManager.cs:151-160 | after the first loop the pack loop adds exactly the pack contribution |
| SongManager.AddOversizedPacks | SongManager.cs:151-160 | the second loop adds every song of each pack holding more than five |
| SongManager.Validate | SongManager.cs:106-163 | the returned count is the non-authentic count of the input |
| SongManager.CandidateSpec | SongManager.cs:55-75 | a record is kept iff it is not glitched and does not throw on an empty RS1 key; the kept song has the record's fields, ODLC iff the author is Ubisoft, and the RS1 AppID only for official RS1 records |
| SongManager.DedupeKeys | SongManager.cs:77-81 | dedupe keeps every DLC key that occurs |
| SongManager.DedupeUnique | SongManager.cs:78-81 | no two kept songs share a DLC key |
| SongManager.DedupeFirst | SongManager.cs:78-81 | the kept songs are exactly those with no earlier song of the same key: first key wins |
| SongManager.DedupeOrigin | SongManager.cs:78-81 | every kept song was offered with no earlier song of its DLC key |
| SongManager.DedupeKeeps | SongManager.cs:78-81 | every song offered with no earlier song of its DLC key is kept |
| SongManager.DedupeSnoc | SongManager.cs:78-81 | a new song is added iff its key is not yet present |
| SongManager.FileSongsCut | SongManager.cs:46-85 | an exception on one record abandons the rest of that file |
| SongManager.SongLibrary.constructor | SongManager.cs:27 | the song table starts empty |
| SongManager.SongLibrary.ExtractSongData | SongManager.cs:24-99 | the song table is the first-key-wins dedupe of the records every file offers, in file order |
| SongManager.SongLibrary.AddFileSongs | SongManager.cs:48-83 | one file's records are added, first key winning, up to the first that throws |
| DllCheck.ClassifySpec | UI.cs:22-76 | a missing DLL is None; a Microsoft or verified certificate is Microsoft; all 32 digest bytes equal to the constant is CustomsForge; a late, large build is RSMods; anything else is Unknown |
| DllCheck.UnknownWhenNothingMatches | UI.cs:33-75 | a certificate that throws on verification is swallowed and, with no digest or date match, gives Unknown |
| DllCheck.MainForm.constructor | UI.cs:12 | the field starts as None |
| DllCheck.MainForm.ValidCdlcDll | UI.cs:22-76 | the byte loop stopping at the first mismatch assigns the classification, and the result is true iff it is CustomsForge or RSMods |
| GenUtil.StrToIntDefPrinted | Util/GenUtil.cs:34-39 | the printed form of any Int32 parses back to it |
| GenUtil.StrToIntDefNoDigits | Util/GenUtil.cs:36-38 | text without digits gives the default |
| GenUtil.GetSettingsPairs | Util/GenUtil.cs:274-288 | the loop yields the dictionary of the specification, or its exception |
| GenUtil.BuildSucceeds | Util/GenUtil.cs:278-285 | no exception iff every line has an `=` and no trimmed key repeats |
| GenUtil.BuildKeys | Util/GenUtil.cs:283 | on success the keys are exactly the lines' keys |
| GenUtil.BuildValues | Util/GenUtil.cs:280-283 | on success each key maps to its line's value |
| GenUtil.BuildThrows | Util/GenUtil.cs:281-283 | a line without `=` or with a repeated key ends the loop with that exception |
| GenUtil.SettingsPairsSpec | Util/GenUtil.cs:274-288 | succeeds iff every line has `=` and keys are distinct; then each key maps to the trimmed text between the first and second `=` |
| GenUtil.LastQuote | Util/GenUtil.cs:180 | the regex's greedy `.*` makes the last quoted field the one matched |
| GenUtil.LibraryFolderShape | Util/GenUtil.cs:192-197 | a matching line contributes the text inside its last quoted field, which holds no quote |
| GenUtil.TrimQuotes | Util/GenUtil.cs:197 | trimming `"` from a quoted field gives its content |
| GenUtil.LibraryLine | Util/GenUtil.cs:180-197 | a line tab, `"digit"`, tabs, `"folder"` yields that folder |
| GenUtil.CollectSpec | Util/GenUtil.cs:190-203 | the collected folders come from matching lines, in order, and are none iff no line matches |
| GenUtil.FoldersSpec | Util/GenUtil.cs:190-203 | at most one folder per line, none quoted, and none iff no line matches |
| GenUtil.GetCustomSteamappsFolders | Util/GenUtil.cs:178-206 | a missing vdf gives no folders; otherwise the folders of its matching lines, in file order |
| GenUtil.CombineSeparates | Util/GenUtil.cs:221 | `Path.Combine` puts a backslash between a folder and a relative name |
| GenUtil.NormalizeSeparatorsShape | Util/GenUtil.cs:225 | `GetDirectoryName`'s separator normalisation leaves no `/` and no doubled backslash past the first character |
| GenUtil.NormalizeSeparatorsPlain | Util/GenUtil.cs:225 | a path already in that form is left unchanged |
| GenUtil.DirectoryNameOfFile | Util/GenUtil.cs:225 | `GetDirectoryName` of `dir\file`, for a file name without separators, is `dir` with its separators normalised |
| GenUtil.GamePathShape | Util/GenUtil.cs:221-227 | the game folder is the normalised `library\steamapps` followed by `common\Rocksmith2014`, exactly `library\steamapps\common\Rocksmith2014` for an already normal library path, and never empty |
| GenUtil.GamePathEscaped | Util/GenUtil.cs:221-227 | a library path with a doubled backslash, as the vdf escapes it, has the same game folder as with a single one |
| GenUtil.FirstHoldingAt | Util/GenUtil.cs:219-235 | a library that holds the game after none before it did is the one the search returns |
| GenUtil.GetCustomRSFolder | Util/GenUtil.cs:213-245 | the empty string iff no library holds the game; otherwise the game folder of the first library, in vdf order, whose manifest exists and whose folder passes `IsRSFolder` |
| GenUtil.DefaultBrowserSpec | Util/GenUtil.cs:75-106 | `iexplore.exe` iff there is no ProgId or it names no known browser; Edge's URL form iff it names Edge and none of the earlier browsers; Chrome wins whenever named |
| DiagLog.Dump | Log.cs:31-49 | the dump is its title, one item per setting with headers where the section changes, then a blank line |
| DiagLog.DumpRocksmithIni | Log.cs:31-49 | the Rocksmith.ini dump is the common dump under its title |
| DiagLog.DumpAsio | Log.cs:51-69 | the RS_ASIO.ini dump is the common dump under its title |
| DiagLog.StepHeader | Log.cs:39-43 | a header line is printed exactly when the section differs from the previous one, which starts as "" |
| DiagLog.DumpSettings | Log.cs:45 | exactly one value line per setting, in list order, with the raw value and no default |
| DiagLog.DumpHeadersContiguous | Log.cs:36-46 | for section-contiguous lists the headers are one per section, in the serialiser's order |
| DiagLog.AsioDumpHeaders | Log.cs:56-66 | the RS_ASIO.ini dump of the registered settings has the six section headers, once each |
| DiagLog.RocksmithDumpHeaders | Log.cs:36-46 | the Rocksmith.ini dump of the registered settings has the three section headers, once each |
| DiagLog.OfficialOnlySpec | Log.cs:73 | the filter keeps exactly the songs with ODLC set and no RS1 AppID |
| DiagLog.Songs | Log.cs:71-79 | the summary is the song total and the non-authentic count of the filtered songs |
| AssemblyResolve.BaseName | Program.cs:26 | the name before its first comma, or with `.dll` removed, has no comma |
| AssemblyResolve.ResourceKeyShape | Program.cs:26-28 | the resource key has no `,`, `.` or `-` |
| AssemblyResolve.ResourceKeyIdempotent | Program.cs:26-28 | normalising a key again changes nothing |
| AssemblyResolve.FullNameKey | Program.cs:26-28 | for a full assembly name the key is its simple name with `.` and `-` replaced by `_` |
| AssemblyResolve.ResolveSpec | Program.cs:24-38 | a key ending in `_resources` gives null before any lookup; otherwise the bytes under the key in the resource set `System.Properties.Resources`, and each exception exactly when its cause holds: `MissingManifestResource` when that set is missing, null passed to `Assembly.Load` when the key is absent, `InvalidCast` when the object is not a `byte[]` |
| AssemblyResolve.OwnResourcesUnreached | Program.cs:33-37 | the set the handler names is not the program's own, so in an assembly holding only its own resources every name not ending in `_resources` throws `MissingManifestResource` |
| Text.IndexOf | Settings/Asio/Settings.cs:112 | the index of the first occurrence, or -1 iff there is none |
| Text.Contains | Settings/Asio/VerifySettings.cs:45 | true iff the text occurs somewhere |
| Text.TrimStartShape | Util/GenUtil.cs:280-281 | trimming removes exactly the leading trimmed characters |
| Text.TrimEndShape | Util/GenUtil.cs:280-281 | trimming removes exactly the trailing trimmed characters |
| Text.ReplaceAbsent | Program.cs:26 | replacing a pattern that cannot occur changes nothing |
| Text.ReplaceRemovesChar | Program.cs:28 | after replacing a character by text without it, the character is gone |
| Text.NatToString | Log.cs:76 | the decimal form has no leading zero and denotes the number |
| Text.IntToStringParses | Settings/Asio/Settings.cs:154 | `int.TryParse` of an Int32's `ToString` gives it back |
| Text.ParseIntNulPadded | Util/GenUtil.cs:36 | appending NUL characters never changes what `int.TryParse` gives |
| Text.ParseIntNulInside | Util/GenUtil.cs:36 | a NUL followed by anything other than NULs makes `int.TryParse` fail |

## Left out

- File I/O: a settings file is its sequence of lines plus an existence flag. `HasValidSettingsFile` is "exists and non-empty" on that model, and `RefreshLocations` and the path constants are not modelled.
- Registry and filesystem probing (`GetStringValueFromRegistry`, `GetSteamDirectory`, `GetRSDirectory`, `IsRSFolder`, `IsDirectoryEmpty`, `GetSteamProfilesFolderManual`, `File.Exists`): these are the sets of existing files and game folders in `GenUtil.Disk`. The vdf file's lines and the registry `Progid` value are inputs.
- Settings/Asio/Devices.cs `FindDevices`: the installed ASIO driver names are the `installed` parameter.
- WinForms dialogs: each `MessageBox` question is an answer parameter, and each informational box is a `Notice` in the result. `ProgressBar` and `FolderBrowserDialog` are not modelled.
- PSARC reading: a package file is given as its AppID, its author and its arrangement records. `ExtractSongData` processes the files sequentially, in list order, so the race of `Parallel.ForEach` on the shared dictionary is not modelled.
- SHA-256, X.509 certificate parsing and verification, and file metadata: the digest, the certificate's outcome, the creation time and the length are fields of `DllCheck.DllFile`.
- Reflection and loading: the executing assembly's resource sets are a parameter, a map from set names to the objects each holds by key, and `Assembly.Load` is the bytes it would load. The name `RSDiagnostics.Properties.Resources` of the program's own set follows its root namespace; `Properties/Resources.resx` is not part of this model. `Map` and `ExtractEmbeddedResource` are not modelled.
- AssemblyResolve.Resolve: `EndsWith("_resources")` is a culture-sensitive comparison in .NET; the model compares ordinally, which agrees except on text holding characters the culture ignores.
- `WarnAboutASIO4All`'s WMI query and `Process.Start`: the warning is a notice.
- `StrToDecDef`: decimal parsing is culture-dependent and not modelled.
- `int.TryParse`: the grammar is optional leading and trailing white space (space and `\t` to `\r`), an optional sign, ASCII digits in the Int32 range, and any number of NUL characters at the very end. Culture-specific signs and thousands separators are not modelled.
- Text.ToLower: lower-casing is the invariant culture's on the ASCII range; other characters are unchanged. `String.ToLower()` uses the current culture, so under a Turkish culture `I` lowers to dotless `ı` and the `asio4all`, `custom` and browser-name tests (Settings/Asio/VerifySettings.cs:49 and :96, Util/GenUtil.cs:87-97, SongManager.cs:124) can differ; non-ASCII capitals that .NET lowers to ASCII letters (U+0130, U+212A) are not modelled.
- GenUtil.DirectoryName: models the separator normalisation of `Path.GetDirectoryName` on .NET Framework 4.6.2 and later, but not its root rule (the directory of `C:\x` is `C:\`, and a path that is all root has none), its removal of leading spaces before a root, nor the legacy path handling an application can opt into. The manifest path `GetCustomRSFolder` passes has its last separator after any root unless the library is itself a bare UNC prefix.
- GenUtil.DirectoryNameOfFile: the directory it proves is that of the normalisation, without the root rule; for a `dir` that is a bare drive such as `C:`, `Path.GetDirectoryName` gives `C:\` rather than `C:`.
- GenUtil.GetCustomRSFolder: `Path.Combine` and `Path.GetDirectoryName` throw `ArgumentException` on a library folder holding `<`, `>`, `|` or a control character; no folder Windows creates does, `GetRSDirectory` catches it outside this model, and the model raises nothing there.
- AsioRoundTrip.RoundTrip: a file is a sequence of lines, and the program writes each with `WriteLine` and reads them with `ReadAllLines`, which splits at every line break. A name, section or value holding `\n` or `\r` would come back as two lines, the second of which throws, so the lemma requires names, sections and written values without line breaks. The setters accept any value, and that failure is not modelled.
- RocksmithRoundTrip.RoundTrip: requires names, sections and written values without line breaks, for the reason given for AsioRoundTrip.RoundTrip.
- AsioRoundTrip.RegisteredFileReads: requires values without line breaks, for the same reason.
- RocksmithRoundTrip.RegisteredFileReads: requires values without line breaks, for the same reason.
- `Log.Init` refers to members that do not exist as static members and is not modelled.
- The setters compare boxed objects with `!=`, which compares references. The model compares values, so an equal value in a different box does not trigger the write-back.
- .NET `Dictionary` key order is taken to be insertion order; the code never removes a key.
- SongManager.Validate: the `nonAuthenticSongs` list is specified only by its length, which is the value returned; the names it holds are not.
- GenUtil.GetCustomRSFolder: the search does not model the registry lookups around it in `GetRSDirectory`, including the result overwritten at Util/GenUtil.cs:319.
