/**
 * Recognition of DAISY talking books (isLocalExploded and isDaisyPublication).
 * Every filesystem and archive probe is an input; the functions return the
 * outcome together with the probes made, in the order they are made.
 */
module DaisyDetect {
  import opened Seqs
  import opened Strings
  import Paths

  /** The four access modes a DAISY book can have. */
  datatype DaisyBookis = LocalExploded | LocalPacked | RemoteExploded | RemotePacked

  /** Package documents looked for at the root of an exploded book, in probing order. */
  const AnchorNames: seq<string> := ["package.opf", "Book.opf", "speechgen.opf"]

  /** The registry file that marks an EPUB-style container. */
  const ContainerXml: string := "META-INF/container.xml"

  /** One observable probe of the outside world. */
  datatype Probe =
    | Stat(name: string)          // rnfs.stat of a path below the locator
    | LoadZip                     // zipLoadPromise(locator)
    | ZipHasEntry(entry: string)  // zipHasEntry(zip, entry)
    | ZipGetEntries               // zip.getEntries()

  /** What opening the locator as an archive yields. */
  datatype ZipLoad = LoadFailed(cause: string) | Loaded(entries: seq<string>)

  /**
   * The answers every probe would give for one locator: whether it is an HTTP
   * address and whether the URL constructor accepts it, the names below the
   * locator whose stat succeeds, and the archive.
   */
  datatype Environment = Environment(isHttp: bool, urlParses: bool, present: set<string>, zip: ZipLoad)

  datatype DetectError = InvalidUrl | ZipFailure(cause: string)

  /** A promise of `DaisyBookis | undefined`: resolved with a mode, with `undefined`, or rejected. */
  datatype Detection = Detected(kind: DaisyBookis) | NotDaisy | Rejected(error: DetectError)

  datatype ExplodedProbe = ExplodedProbe(ok: bool, probes: seq<Probe>)

  datatype Classification = Classification(outcome: Detection, probes: seq<Probe>)

  /** Some package document name is present at the root. */
  predicate HasAnchor(present: set<string>)
  {
    exists i :: 0 <= i < |AnchorNames| && AnchorNames[i] in present
  }

  /** Archive entries that name a package document (JavaScript `entry.endsWith(".opf")`). */
  predicate IsOpfEntry(entry: string)
  {
    EndsWith(entry, ".opf")
  }

  /** The first archive entry, in enumeration order, ending in ".opf". */
  function FindOpfEntry(entries: seq<string>): (r: Option<string>)
    ensures r.None? <==> forall j :: 0 <= j < |entries| ==> !IsOpfEntry(entries[j])
    ensures r.Some? ==> exists i :: IsFirstMatch(entries, IsOpfEntry, i) && entries[i] == r.value
    ensures r.Some? ==> IsOpfEntry(r.value) && |r.value| >= 4
  {
    Find(entries, IsOpfEntry)
  }

  /** The index of the first package document name present at the root, if any. */
  function FirstAnchor(present: set<string>): (r: Option<nat>)
    ensures r.None? <==> !HasAnchor(present)
    ensures r.Some? ==> r.value < |AnchorNames| && AnchorNames[r.value] in present
    ensures r.Some? ==> forall j :: 0 <= j < r.value ==> AnchorNames[j] !in present
  {
    FindIndex(AnchorNames, name => name in present)
  }

  /** One stat per name, in order. */
  function Stats(names: seq<string>): seq<Probe>
  {
    seq(|names|, i requires 0 <= i < |names| => Stat(names[i]))
  }

  /**
   * isLocalExploded: the anchors are stat-ed in order until one exists; only then
   * is the registry stat-ed, and its presence makes the detection fail.
   */
  function IsLocalExploded(present: set<string>): (r: ExplodedProbe)
    ensures r.ok <==> HasAnchor(present) && ContainerXml !in present
    ensures var first := FirstAnchor(present);
            r.probes == if first.Some? then Stats(AnchorNames[..first.value + 1]) + [Stat(ContainerXml)]
                        else Stats(AnchorNames)
    ensures forall k :: 0 <= k < |r.probes| ==> r.probes[k].Stat?
    ensures Stat(ContainerXml) in r.probes <==> HasAnchor(present)
    ensures forall j, k :: 0 <= j < k < |AnchorNames| && Stat(AnchorNames[k]) in r.probes ==> AnchorNames[j] !in present
    ensures forall k :: 0 <= k < |AnchorNames| && (forall j :: 0 <= j < k ==> AnchorNames[j] !in present) ==>
              Stat(AnchorNames[k]) in r.probes
  {
    var package, book, speechgen := Stat(AnchorNames[0]), Stat(AnchorNames[1]), Stat(AnchorNames[2]);
    var hasNoContainer := ContainerXml !in present;
    if AnchorNames[0] in present then
      ExplodedProbe(hasNoContainer, [package, Stat(ContainerXml)])
    else if AnchorNames[1] in present then
      ExplodedProbe(hasNoContainer, [package, book, Stat(ContainerXml)])
    else if AnchorNames[2] in present then
      ExplodedProbe(hasNoContainer, [package, book, speechgen, Stat(ContainerXml)])
    else
      ExplodedProbe(false, [package, book, speechgen])
  }

  /** The lower-cased extension of the locator's basename matches /\.daisy[23]?$/. */
  predicate HasDaisyExtension(path: string)
  {
    var ext := Lower(Paths.BasenameExt(path));
    EndsWith(ext, ".daisy") || EndsWith(ext, ".daisy2") || EndsWith(ext, ".daisy3")
  }

  /**
   * The archive probes once exploded detection has failed: loading, then the
   * registry test only after a successful load, then the entry listing only
   * when the registry entry is absent.
   */
  function ArchiveProbes(zip: ZipLoad): (r: seq<Probe>)
    ensures |r| > 0 && r[0] == LoadZip && LoadZip !in r[1..]
    ensures ZipHasEntry(ContainerXml) in r <==> zip.Loaded?
    ensures ZipGetEntries in r <==> zip.Loaded? && ContainerXml !in zip.entries
    ensures forall k :: 0 <= k < |r| ==> !r[k].Stat?
    ensures forall i, j :: 0 <= i < j < |r| ==> r[i] != r[j]
    ensures forall k :: 0 <= k < |r| && r[k].ZipHasEntry? ==> r[k].entry == ContainerXml
    ensures forall i, j :: 0 <= i < |r| && 0 <= j < |r| && r[i].ZipHasEntry? && r[j] == ZipGetEntries ==> i < j
  {
    match zip
    case LoadFailed(_) => [LoadZip]
    case Loaded(entries) =>
      if ContainerXml in entries then [LoadZip, ZipHasEntry(ContainerXml)]
      else [LoadZip, ZipHasEntry(ContainerXml), ZipGetEntries]
  }

  /** isDaisyPublication: the short-circuiting priority chain. */
  function IsDaisyPublication(path: string, env: Environment): (r: Classification)
    ensures r.outcome != Detected(RemoteExploded) && r.outcome != Detected(RemotePacked)
    ensures env.isHttp ==> r.probes == [] && !r.outcome.Detected?
    ensures env.isHttp ==> r.outcome == (if env.urlParses then NotDaisy else Rejected(InvalidUrl))
    ensures r.outcome == Rejected(InvalidUrl) <==> env.isHttp && !env.urlParses
    ensures r.outcome == Detected(LocalExploded) <==>
              !env.isHttp && !HasDaisyExtension(path) && IsLocalExploded(env.present).ok
    ensures r.outcome == Detected(LocalPacked) <==>
              !env.isHttp && (HasDaisyExtension(path) ||
                (!IsLocalExploded(env.present).ok && env.zip.Loaded? && ContainerXml !in env.zip.entries &&
                 exists j :: 0 <= j < |env.zip.entries| && IsOpfEntry(env.zip.entries[j])))
    ensures r.outcome.Rejected? && r.outcome.error.ZipFailure? <==>
              !env.isHttp && !HasDaisyExtension(path) && !IsLocalExploded(env.present).ok && env.zip.LoadFailed?
    ensures LoadZip in r.probes <==> !env.isHttp && !HasDaisyExtension(path) && !IsLocalExploded(env.present).ok
    ensures !env.isHttp && !HasDaisyExtension(path) ==> IsLocalExploded(env.present).probes <= r.probes
    ensures !env.isHttp && !HasDaisyExtension(path) ==>
              r.probes == IsLocalExploded(env.present).probes +
                          (if IsLocalExploded(env.present).ok then [] else ArchiveProbes(env.zip))
    ensures ZipHasEntry(ContainerXml) in r.probes <==> LoadZip in r.probes && env.zip.Loaded?
    ensures ZipGetEntries in r.probes <==> LoadZip in r.probes && env.zip.Loaded? && ContainerXml !in env.zip.entries
  {
    if env.isHttp then
      // The pathname of a parsed URL is computed and dropped: remote books are unsupported.
      Classification(if env.urlParses then NotDaisy else Rejected(InvalidUrl), [])
    else if HasDaisyExtension(path) then
      Classification(Detected(LocalPacked), [])
    else
      var exploded := IsLocalExploded(env.present);
      if exploded.ok then
        Classification(Detected(LocalExploded), exploded.probes)
      else
        var archive := ArchiveProbes(env.zip);
        assert exploded.probes <= exploded.probes + archive;
        match env.zip
        case LoadFailed(cause) =>
          Classification(Rejected(ZipFailure(cause)), exploded.probes + archive)
        case Loaded(entries) =>
          if ContainerXml in entries then
            Classification(NotDaisy, exploded.probes + archive)
          else
            var found := FindOpfEntry(entries);
            Classification(if found.None? then NotDaisy else Detected(LocalPacked), exploded.probes + archive)
  }

  /** A remote locator is never recognised, whatever the later probes would answer. */
  lemma RemoteIgnoresProbes(path: string, env: Environment, other: Environment)
    requires env.isHttp && other.isHttp && env.urlParses == other.urlParses
    ensures IsDaisyPublication(path, env) == IsDaisyPublication(path, other)
    ensures env.urlParses ==> IsDaisyPublication(path, env) == Classification(NotDaisy, [])
  {
  }

  /** A local locator with a DAISY extension is packed, and nothing is probed. */
  lemma ExtensionIgnoresProbes(path: string, env: Environment, other: Environment)
    requires !env.isHttp && !other.isHttp && HasDaisyExtension(path)
    ensures IsDaisyPublication(path, env) == IsDaisyPublication(path, other) == Classification(Detected(LocalPacked), [])
  {
  }

  /**
   * Since the extension holds a single dot, at its start, matching the
   * regular expression means being exactly one of the three extensions.
   */
  lemma {:induction false} DaisyExtensionIsExact(path: string)
    ensures HasDaisyExtension(path) <==> Lower(Paths.BasenameExt(path)) in {".daisy", ".daisy2", ".daisy3"}
  {
    var raw := Paths.BasenameExt(path);
    var ext := Lower(raw);
    assert SingleLeadingDot(ext) by {
      forall i | 1 <= i < |ext| ensures ext[i] != '.' {
        assert raw[i] != '.';
      }
    }
    if EndsWith(ext, ".daisy") { SuffixOfSingleDot(ext, ".daisy"); }
    if EndsWith(ext, ".daisy2") { SuffixOfSingleDot(ext, ".daisy2"); }
    if EndsWith(ext, ".daisy3") { SuffixOfSingleDot(ext, ".daisy3"); }
  }

  /** The extension test ignores case: "d/b.DAISY3" is a packed book. */
  lemma UpperCaseExtensionMatches()
    ensures HasDaisyExtension("d/b.DAISY3")
  {
    Paths.LastIndexOfAt("d/b.DAISY3", '/', 1);
    Paths.LastIndexOfAt("b.DAISY3", '.', 1);
    assert Lower(".DAISY3") == ".daisy3";
  }

  /** Trailing separators are skipped: "d/b.daisy/" is a packed book. */
  lemma TrailingSlashSkipped()
    ensures HasDaisyExtension("d/b.daisy/")
  {
    assert Paths.StripTrailingSlashes("d/b.daisy/") == "d/b.daisy";
    Paths.LastIndexOfAt("d/b.daisy", '/', 1);
    Paths.LastIndexOfAt("b.daisy", '.', 1);
    assert Lower(".daisy") == ".daisy";
  }

  /** A dot-file named ".daisy" has no extension, so it is not recognised by name. */
  lemma DotFileHasNoExtension()
    ensures !HasDaisyExtension("d/.daisy")
  {
    Paths.LastIndexOfAt("d/.daisy", '/', 1);
    Paths.LastIndexOfAt(".daisy", '.', 0);
  }

  /** `s` is empty or holds exactly one '.', in front. */
  ghost predicate SingleLeadingDot(s: string)
  {
    s == [] || (s[0] == '.' && forall i :: 1 <= i < |s| ==> s[i] != '.')
  }

  lemma SuffixOfSingleDot(s: string, suffix: string)
    requires SingleLeadingDot(s) && |suffix| > 0 && suffix[0] == '.' && EndsWith(s, suffix)
    ensures s == suffix
  {
    var k := |s| - |suffix|;
    assert s[k] == suffix[0];
  }

  /** When exploded detection fails, the archive decides; the registry entry rules it out. */
  lemma ArchiveFallback(path: string, env: Environment)
    requires !env.isHttp && !HasDaisyExtension(path) && !IsLocalExploded(env.present).ok
    ensures env.zip.LoadFailed? ==> IsDaisyPublication(path, env).outcome == Rejected(ZipFailure(env.zip.cause))
    ensures env.zip.Loaded? && ContainerXml in env.zip.entries ==> IsDaisyPublication(path, env).outcome == NotDaisy
    ensures env.zip.Loaded? && ContainerXml !in env.zip.entries ==>
              IsDaisyPublication(path, env).outcome ==
                (if FindOpfEntry(env.zip.entries).Some? then Detected(LocalPacked) else NotDaisy)
  {
  }
}
