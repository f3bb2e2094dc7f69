/** `Program.ResolveEmbededAssembly`: the handler that is meant to load a
    referenced assembly from the program's embedded resources. The
    assembly's resource sets are a parameter; loading an image is not
    modelled beyond handing it over. */
module AssemblyResolve {
  import opened Text

  /** The simple name: the text before the first comma of a full assembly
      name, otherwise the file name with every ".dll" removed. */
  function BaseName(name: string): (r: string)
    ensures ',' !in r
  {
    if ',' in name then
      name[..IndexOf(name, ',')]
    else
      ReplaceKeepsAbsent(name, ".dll", "", ',');
      Replace(name, ".dll", "")
  }

  /** The resource key: the simple name with '.' and '-' turned into '_'. */
  function ResourceKey(name: string): string {
    Replace(Replace(BaseName(name), ".", "_"), "-", "_")
  }

  /** An object stored in a resource set: a `byte[]`, or anything else. */
  datatype Resource = Bytes(bytes: seq<bv8>) | OtherObject

  /** The exceptions the handler lets escape. */
  datatype ResolveError =
    | MissingManifestResource   // GetObject when the assembly has no such resource set
    | NullImage                 // Assembly.Load(null) when the key is absent
    | InvalidCast               // (byte[]) of an object of another type

  /** What the handler returns: null for a satellite resource assembly, the
      image handed to `Assembly.Load`, or an exception. */
  datatype Resolution = NoAssembly | Image(bytes: seq<bv8>) | Throws(error: ResolveError)

  /** `new object().GetType().Namespace`. */
  const ObjectNamespace := "System"

  /** The resource set the handler's `ResourceManager` is built on. */
  const ResourceSetName := ObjectNamespace + ".Properties.Resources"

  /** The resource set a project's `Properties/Resources.resx` compiles
      into: its root namespace, then `.Properties.Resources`. */
  const OwnResourceSetName := "RSDiagnostics.Properties.Resources"

  /** The handler, given the resource sets of the executing assembly by
      name: the key is looked up in the set `ResourceSetName`. */
  function Resolve(assembly: map<string, map<string, Resource>>, name: string): Resolution {
    var key := ResourceKey(name);
    if EndsWith(key, "_resources") then NoAssembly
    else if ResourceSetName !in assembly then Throws(MissingManifestResource)
    else if key !in assembly[ResourceSetName] then Throws(NullImage)
    else
      match assembly[ResourceSetName][key]
      case Bytes(b) => Image(b)
      case OtherObject => Throws(InvalidCast)
  }

  /** A key never holds a comma, a dot or a dash. */
  lemma {:induction false} ResourceKeyShape(name: string)
    ensures ',' !in ResourceKey(name) && '.' !in ResourceKey(name) && '-' !in ResourceKey(name)
  {
    var b := BaseName(name);
    var dotless := Replace(b, ".", "_");
    ReplaceRemovesChar(b, '.', "_");
    ReplaceKeepsAbsent(b, ".", "_", ',');
    ReplaceRemovesChar(dotless, '-', "_");
    ReplaceKeepsAbsent(dotless, "-", "_", ',');
    ReplaceKeepsAbsent(dotless, "-", "_", '.');
  }

  /** Resolving a key again yields the same key. */
  lemma {:induction false} ResourceKeyIdempotent(name: string)
    ensures ResourceKey(ResourceKey(name)) == ResourceKey(name)
  {
    var key := ResourceKey(name);
    ResourceKeyShape(name);
    ReplaceAbsent(key, ".dll", "");
    ReplaceAbsent(key, ".", "_");
    ReplaceAbsent(key, "-", "_");
  }

  /** Each outcome exactly: null for a `_resources` key, before any lookup;
      otherwise the bytes stored under the key in the set the handler
      names, and an exception when that set is missing, the key is absent
      or the object is not a `byte[]`. */
  lemma {:induction false} ResolveSpec(assembly: map<string, map<string, Resource>>, name: string)
    ensures var key := ResourceKey(name);
      Resolve(assembly, name) == NoAssembly <==> EndsWith(key, "_resources")
    ensures var key := ResourceKey(name);
      Resolve(assembly, name).Image? <==>
        !EndsWith(key, "_resources") && ResourceSetName in assembly &&
        key in assembly[ResourceSetName] && assembly[ResourceSetName][key].Bytes?
    ensures var key := ResourceKey(name);
      Resolve(assembly, name).Image? ==> Resolve(assembly, name).bytes == assembly[ResourceSetName][key].bytes
    ensures var key := ResourceKey(name);
      Resolve(assembly, name) == Throws(MissingManifestResource) <==>
        !EndsWith(key, "_resources") && ResourceSetName !in assembly
    ensures var key := ResourceKey(name);
      Resolve(assembly, name) == Throws(NullImage) <==>
        !EndsWith(key, "_resources") && ResourceSetName in assembly && key !in assembly[ResourceSetName]
    ensures var key := ResourceKey(name);
      Resolve(assembly, name) == Throws(InvalidCast) <==>
        !EndsWith(key, "_resources") && ResourceSetName in assembly &&
        key in assembly[ResourceSetName] && assembly[ResourceSetName][key].OtherObject?
  {
  }

  /** The set the handler names is not the program's own: in an assembly
      whose only resource set is its own, every name that does not end in
      `_resources` throws `MissingManifestResource`, so no embedded
      assembly is ever loaded. */
  lemma {:induction false} OwnResourcesUnreached(assembly: map<string, map<string, Resource>>, name: string)
    requires forall s :: s in assembly ==> s == OwnResourceSetName
    ensures Resolve(assembly, name) ==
      if EndsWith(ResourceKey(name), "_resources") then NoAssembly else Throws(MissingManifestResource)
  {
    assert ResourceSetName != OwnResourceSetName by {
      assert ResourceSetName[0] == 'S' && OwnResourceSetName[0] == 'R';
    }
  }

  /** Only the simple name of a full assembly name matters. */
  lemma {:induction false} FullNameKey(simple: string, rest: string)
    requires ',' !in simple
    ensures ResourceKey(simple + "," + rest) == Replace(Replace(simple, ".", "_"), "-", "_")
  {
    var name := simple + "," + rest;
    assert name[|simple|] == ',';
    assert ',' in name;
    var i := IndexOf(name, ',');
    assert i == |simple| by {
      assert name[..|simple|] == simple;
    }
    assert name[..i] == simple;
  }
}
