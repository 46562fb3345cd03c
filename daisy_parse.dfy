/**
 * Assembly of a DAISY publication (DaisyParsePromise) and the per-link
 * media-overlay hook it hands to the spine builder (addLinkData).
 *
 * The zip and the package document are inputs; the helpers shared with the
 * EPUB parser are not part of this model and appear only as the ordered list
 * of assembly steps the parse performs.
 */
module DaisyParse {
  import opened Seqs
  import opened Strings
  import opened Models
  import Paths
  import DaisyDetect

  const ReadiumContext: string := "https://readium.org/webpub-manifest/context.jsonld"
  const BookRdfType: string := "http://schema.org/Book"
  const EmptyZipMessage: string := "Daisy zip empty"
  const MissingOpfMessage: string := "OPF package XML file cannot be found."
  const NcxMediaType: string := "application/x-dtbncx+xml"
  const XmlMediaType: string := "text/xml"
  const MultimediaTypeKey: string := "dtb:multimediaType"

  /** One `manifest/item` of the package document; absent attributes are `None`. */
  datatype ManifestItem = ManifestItem(href: Option<string>, mediaType: Option<string>)

  /**
   * The parts of the package document this model reads: the manifest list
   * (absent when the document has none) and the additional-metadata bag that
   * addOtherMetadata derives from it.
   */
  datatype Opf = Opf(manifest: Option<seq<ManifestItem>>, additional: Option<map<string, MetaValue>>)

  datatype ParseError =
    | ZipLoadError(cause: string)      // zipLoadPromise rejected
    | Rejection(message: string)       // a rejection of DaisyParsePromise itself
    | HelperRejected(cause: string)    // an assembly helper threw or rejected

  /** What the returned promise settles to. */
  datatype ParseOutcome = Parsed(publication: Publication) | Failed(error: ParseError)

  /** The assembly helpers the parse calls, in the order it calls them. */
  datatype AssemblyStep =
    | ReadOpf(path: string)          // getOpf
    | AddLanguage
    | AddTitle
    | AddIdentifier
    | AddOtherMetadata
    | SetPublicationDirection
    | FindContributorInMeta
    | FillSpineAndResource           // invokes addLinkData on every link it builds
    | ReadNcx(item: ManifestItem)    // getNcx
    | FillToc(ncx: Option<ManifestItem>)
    | FillSubject
    | FillPublicationDate

  // ---------------------------------------------------------------- NCX choice

  /** A manifest item declared with the canonical NCX media type. */
  predicate IsCanonicalNcx(item: ManifestItem)
  {
    item.mediaType == Some(NcxMediaType)
  }

  /** A generic XML manifest item whose href has the ".ncx" extension. */
  predicate IsXmlNcx(item: ManifestItem)
  {
    item.mediaType == Some(XmlMediaType) && item.href.Some? && EndsWith(item.href.value, ".ncx")
  }

  ghost predicate AnyMatch(items: seq<ManifestItem>, p: ManifestItem -> bool)
  {
    exists j :: 0 <= j < |items| && p(items[j])
  }

  /** The navigation-control document chosen for the table of contents. */
  function SelectNcx(opf: Opf): (r: Option<ManifestItem>)
    ensures opf.manifest.None? ==> r.None?
    ensures opf.manifest.Some? ==>
              (r.Some? <==> AnyMatch(opf.manifest.value, IsCanonicalNcx) || AnyMatch(opf.manifest.value, IsXmlNcx))
    ensures opf.manifest.Some? && AnyMatch(opf.manifest.value, IsCanonicalNcx) ==>
              exists i :: IsFirstMatch(opf.manifest.value, IsCanonicalNcx, i) && r == Some(opf.manifest.value[i])
    ensures opf.manifest.Some? && !AnyMatch(opf.manifest.value, IsCanonicalNcx) && r.Some? ==>
              exists i :: IsFirstMatch(opf.manifest.value, IsXmlNcx, i) && r == Some(opf.manifest.value[i])
  {
    match opf.manifest
    case None => None
    case Some(items) =>
      var canonical := Find(items, IsCanonicalNcx);
      if canonical.Some? then canonical else Find(items, IsXmlNcx)
  }

  /** With both kinds declared, the canonical media type wins whatever the order. */
  lemma CanonicalNcxPreferred(items: seq<ManifestItem>, i: nat)
    requires IsFirstMatch(items, IsCanonicalNcx, i)
    ensures SelectNcx(Opf(Some(items), None)) == Some(items[i])
  {
    FindIsFirst(items, IsCanonicalNcx, i);
  }

  /** Reading the package document at `opfPath`, then language, title and identifier. */
  function OpeningSteps(opfPath: string): seq<AssemblyStep>
  {
    [ReadOpf(opfPath), AddLanguage, AddTitle, AddIdentifier]
  }

  /** The remaining metadata helpers and the spine. */
  function DescriptionSteps(): seq<AssemblyStep>
  {
    [AddOtherMetadata, SetPublicationDirection, FindContributorInMeta, FillSpineAndResource]
  }

  /** The helpers called after the spine: the NCX, when one is chosen, then the table of contents. */
  function NavigationSteps(opf: Opf): seq<AssemblyStep>
  {
    var ncx := SelectNcx(opf);
    (if ncx.Some? then [ReadNcx(ncx.value)] else []) + [FillToc(ncx), FillSubject, FillPublicationDate]
  }

  /** The helper calls of a successful parse whose package document is `opf`, read from `opfPath`. */
  function AssemblySteps(opfPath: string, opf: Opf): seq<AssemblyStep>
  {
    OpeningSteps(opfPath) + DescriptionSteps() + NavigationSteps(opf)
  }

  /**
   * The package document is read first and the publication date filled last;
   * the NCX is read exactly when one is chosen, it is the chosen one, and it
   * is read before the table of contents is filled from it.
   */
  lemma AssemblyStepsShape(opfPath: string, opf: Opf)
    ensures var steps := AssemblySteps(opfPath, opf);
            && |steps| >= 11 && steps[0] == ReadOpf(opfPath) && steps[|steps| - 1] == FillPublicationDate
            && FillToc(SelectNcx(opf)) in steps
            && ((exists i :: 0 <= i < |steps| && steps[i].ReadNcx?) <==> SelectNcx(opf).Some?)
            && (forall i :: 0 <= i < |steps| && steps[i].ReadNcx? ==> Some(steps[i].item) == SelectNcx(opf))
            && (forall i, j :: 0 <= i < |steps| && 0 <= j < |steps| && steps[i].ReadNcx? && steps[j].FillToc? ==> i < j)
  {
    var steps := AssemblySteps(opfPath, opf);
    var ncx := SelectNcx(opf);
    if ncx.Some? {
      assert steps == [ReadOpf(opfPath), AddLanguage, AddTitle, AddIdentifier, AddOtherMetadata,
                       SetPublicationDirection, FindContributorInMeta, FillSpineAndResource,
                       ReadNcx(ncx.value), FillToc(ncx), FillSubject, FillPublicationDate];
      assert steps[8].ReadNcx?;
    } else {
      assert steps == [ReadOpf(opfPath), AddLanguage, AddTitle, AddIdentifier, AddOtherMetadata,
                       SetPublicationDirection, FindContributorInMeta, FillSpineAndResource,
                       FillToc(ncx), FillSubject, FillPublicationDate];
    }
  }

  // ---------------------------------------------------------------- running the helpers

  /** The helper calls made, and the cause of the rejection that stopped them, if any. */
  datatype AssemblyRun = AssemblyRun(performed: seq<AssemblyStep>, rejection: Option<string>)

  /**
   * Running `plan` in order when `rejects(s)` is the cause with which helper
   * `s` would throw or reject: the first such helper is the last one called,
   * and its cause becomes the rejection of the whole parse.
   */
  function RunSteps(plan: seq<AssemblyStep>, rejects: AssemblyStep -> Option<string>): AssemblyRun
    decreases |plan|
  {
    if plan == [] then AssemblyRun([], None)
    else if rejects(plan[0]).Some? then AssemblyRun([plan[0]], rejects(plan[0]))
    else
      var rest := RunSteps(plan[1..], rejects);
      AssemblyRun([plan[0]] + rest.performed, rest.rejection)
  }

  /**
   * The run completes exactly when no helper of the plan rejects; otherwise it
   * stops at the first helper that does, having called the ones before it.
   */
  lemma {:induction false} RunStepsMeaning(plan: seq<AssemblyStep>, rejects: AssemblyStep -> Option<string>)
    ensures var r := RunSteps(plan, rejects);
            && (r.rejection.None? <==> forall i :: 0 <= i < |plan| ==> rejects(plan[i]).None?)
            && (r.rejection.None? ==> r.performed == plan)
            && (r.rejection.Some? ==>
                  && 0 < |r.performed| <= |plan|
                  && r.performed == plan[..|r.performed|]
                  && r.rejection == rejects(plan[|r.performed| - 1])
                  && forall i :: 0 <= i < |r.performed| - 1 ==> rejects(plan[i]).None?)
    decreases |plan|
  {
    if plan != [] && rejects(plan[0]).None? {
      RunStepsMeaning(plan[1..], rejects);
      var rest := RunSteps(plan[1..], rejects);
      assert plan == [plan[0]] + plan[1..];
      if rest.rejection.None? {
        forall i | 0 <= i < |plan| ensures rejects(plan[i]).None? {
          if i > 0 { assert plan[i] == plan[1..][i - 1]; }
        }
      } else {
        var n := |rest.performed|;
        assert plan[..n + 1] == [plan[0]] + plan[1..][..n];
        forall i | 0 <= i < n ensures rejects(plan[i]).None? {
          if i > 0 { assert plan[i] == plan[1..][i - 1]; }
        }
        assert !rejects(plan[n]).None? by { assert plan[n] == plan[1..][n - 1]; }
      }
    }
  }

  /** When helper `k` is the first to reject, exactly the helpers up to it are called. */
  lemma {:induction false} RunStepsAt(plan: seq<AssemblyStep>, rejects: AssemblyStep -> Option<string>, k: nat)
    requires k < |plan| && rejects(plan[k]).Some?
    requires forall i :: 0 <= i < k ==> rejects(plan[i]).None?
    ensures RunSteps(plan, rejects) == AssemblyRun(plan[..k + 1], rejects(plan[k]))
    decreases k
  {
    if k > 0 {
      RunStepsAt(plan[1..], rejects, k - 1);
      assert plan[..k + 1] == [plan[0]] + plan[1..][..k];
    }
  }

  /** Running two plans one after the other: the second starts only if the first completes. */
  lemma {:induction false} RunStepsAppend(first: seq<AssemblyStep>, second: seq<AssemblyStep>,
                                          rejects: AssemblyStep -> Option<string>)
    ensures RunSteps(first + second, rejects) ==
              var head := RunSteps(first, rejects);
              var tail := RunSteps(second, rejects);
              if head.rejection.Some? then head else AssemblyRun(first + tail.performed, tail.rejection)
    decreases |first|
  {
    if first == [] {
      assert first + second == second;
    } else {
      var whole := first + second;
      assert whole[0] == first[0];
      if rejects(first[0]).None? {
        assert whole[1..] == first[1..] + second;
        RunStepsAppend(first[1..], second, rejects);
        var tail := RunSteps(second, rejects);
        assert first + tail.performed == [first[0]] + (first[1..] + tail.performed);
      }
    }
  }

  /** A run that no helper rejected called every helper of its plan. */
  lemma RunStepsCompletePerformed(plan: seq<AssemblyStep>, rejects: AssemblyStep -> Option<string>)
    ensures RunSteps(plan, rejects).rejection.None? ==> RunSteps(plan, rejects).performed == plan
  {
    RunStepsMeaning(plan, rejects);
  }

  /**
   * Calling `step` after the helpers `done`: it is called only if none of them
   * rejected, and its rejection, if any, ends the run.
   */
  method Perform(steps: seq<AssemblyStep>, failure: Option<string>, step: AssemblyStep,
                 rejects: AssemblyStep -> Option<string>, ghost done: seq<AssemblyStep>)
    returns (steps': seq<AssemblyStep>, failure': Option<string>)
    requires RunSteps(done, rejects) == AssemblyRun(steps, failure)
    ensures RunSteps(done + [step], rejects) == AssemblyRun(steps', failure')
    ensures |steps'| == if failure.None? then |steps| + 1 else |steps|
    ensures |steps'| <= |done| + 1 && (failure'.None? ==> |steps'| == |done| + 1)
  {
    RunStepsAppend(done, [step], rejects);
    RunStepsMeaning(done, rejects);
    if failure.Some? {
      return steps, failure;
    }
    steps', failure' := steps + [step], rejects(step);
  }

  /** A rejected run called at least one helper, and never more than its plan holds. */
  lemma RunStepsLength(plan: seq<AssemblyStep>, rejects: AssemblyStep -> Option<string>)
    ensures |RunSteps(plan, rejects).performed| <= |plan|
    ensures RunSteps(plan, rejects).rejection.Some? ==> RunSteps(plan, rejects).performed != []
  {
    RunStepsMeaning(plan, rejects);
  }

  // ---------------------------------------------------------------- parse

  /**
   * The part of the parse that follows locating the package document: reading
   * it, the metadata helpers, the spine, the NCX choice and the table of
   * contents. A helper that throws or rejects ends it. The additional-metadata
   * bag is set when addOtherMetadata, the fifth helper, is called.
   */
  method Assemble(metadata: Metadata, opfPath: string, opf: Opf, rejects: AssemblyStep -> Option<string>)
    returns (steps: seq<AssemblyStep>, failure: Option<string>)
    modifies metadata
    ensures metadata.RdfType == old(metadata.RdfType)
    ensures metadata.AdditionalJson == if |steps| > 4 then opf.additional else old(metadata.AdditionalJson)
    ensures RunSteps(AssemblySteps(opfPath, opf), rejects) == AssemblyRun(steps, failure)
  {
    var opening, description, navigation := OpeningSteps(opfPath), DescriptionSteps(), NavigationSteps(opf);
    RunStepsAppend(opening, description, rejects);
    RunStepsAppend(opening + description, navigation, rejects);

    steps, failure := AssembleOpening(opfPath, rejects);
    if failure.Some? {
      RunStepsLength(opening, rejects);
      return;
    }
    RunStepsCompletePerformed(opening, rejects);
    var more;
    more, failure := AssembleDescription(metadata, opf, rejects);
    steps := steps + more;
    if failure.Some? {
      RunStepsLength(description, rejects);
      return;
    }
    RunStepsCompletePerformed(description, rejects);
    more, failure := AssembleNavigation(opf, rejects);
    steps := steps + more;
  }

  /** getOpf, then addLanguage, addTitle and addIdentifier. */
  method AssembleOpening(opfPath: string, rejects: AssemblyStep -> Option<string>)
    returns (steps: seq<AssemblyStep>, failure: Option<string>)
    ensures RunSteps(OpeningSteps(opfPath), rejects) == AssemblyRun(steps, failure)
  {
    ghost var done: seq<AssemblyStep> := [];
    steps, failure := [], None;
    steps, failure := Perform(steps, failure, ReadOpf(opfPath), rejects, done);
    done := done + [ReadOpf(opfPath)];
    steps, failure := Perform(steps, failure, AddLanguage, rejects, done);
    done := done + [AddLanguage];
    steps, failure := Perform(steps, failure, AddTitle, rejects, done);
    done := done + [AddTitle];
    steps, failure := Perform(steps, failure, AddIdentifier, rejects, done);
    done := done + [AddIdentifier];
    assert done == OpeningSteps(opfPath);
  }

  /**
   * addOtherMetadata, which sets the additional-metadata bag, then
   * setPublicationDirection, findContributorInMeta and fillSpineAndResource.
   */
  method AssembleDescription(metadata: Metadata, opf: Opf, rejects: AssemblyStep -> Option<string>)
    returns (steps: seq<AssemblyStep>, failure: Option<string>)
    modifies metadata
    ensures metadata.RdfType == old(metadata.RdfType)
    ensures metadata.AdditionalJson == opf.additional
    ensures RunSteps(DescriptionSteps(), rejects) == AssemblyRun(steps, failure)
  {
    metadata.AdditionalJson := opf.additional;
    ghost var done: seq<AssemblyStep> := [];
    steps, failure := [], None;
    steps, failure := Perform(steps, failure, AddOtherMetadata, rejects, done);
    done := done + [AddOtherMetadata];
    steps, failure := Perform(steps, failure, SetPublicationDirection, rejects, done);
    done := done + [SetPublicationDirection];
    steps, failure := Perform(steps, failure, FindContributorInMeta, rejects, done);
    done := done + [FindContributorInMeta];
    steps, failure := Perform(steps, failure, FillSpineAndResource, rejects, done);
    done := done + [FillSpineAndResource];
    assert done == DescriptionSteps();
  }

  /** The NCX choice, getNcx on the chosen item, then fillTOC, fillSubject and fillPublicationDate. */
  method AssembleNavigation(opf: Opf, rejects: AssemblyStep -> Option<string>)
    returns (steps: seq<AssemblyStep>, failure: Option<string>)
    ensures RunSteps(NavigationSteps(opf), rejects) == AssemblyRun(steps, failure)
  {
    ghost var done: seq<AssemblyStep> := [];
    steps, failure := [], None;
    var ncxManItem: Option<ManifestItem> := None;
    if opf.manifest.Some? {
      ncxManItem := Find(opf.manifest.value, IsCanonicalNcx);
      if ncxManItem.None? {
        ncxManItem := Find(opf.manifest.value, IsXmlNcx);
      }
      if ncxManItem.Some? {
        steps, failure := Perform(steps, failure, ReadNcx(ncxManItem.value), rejects, done);
        done := done + [ReadNcx(ncxManItem.value)];
      }
    }
    assert ncxManItem == SelectNcx(opf);
    steps, failure := Perform(steps, failure, FillToc(ncxManItem), rejects, done);
    done := done + [FillToc(ncxManItem)];
    steps, failure := Perform(steps, failure, FillSubject, rejects, done);
    done := done + [FillSubject];
    steps, failure := Perform(steps, failure, FillPublicationDate, rejects, done);
    done := done + [FillPublicationDate];
    assert done == NavigationSteps(opf);
  }

  /**
   * DaisyParsePromise: open the zip, refuse an empty one, tag a new
   * publication, find the package document, and run the assembly helpers.
   * `readOpf` stands for parsing the package document at a zip path, and
   * `rejects` for the cause with which each helper call would throw or
   * reject, if it would.
   */
  method DaisyParsePromise(filePath: string, zip: DaisyDetect.ZipLoad, readOpf: string -> Opf,
                    rejects: AssemblyStep -> Option<string>)
    returns (r: ParseOutcome, steps: seq<AssemblyStep>)
    ensures zip.LoadFailed? ==> r == Failed(ZipLoadError(zip.cause))
    ensures zip.Loaded? && zip.entries == [] ==> r == Failed(Rejection(EmptyZipMessage))
    ensures zip.Loaded? && zip.entries != [] && DaisyDetect.FindOpfEntry(zip.entries).None? ==>
              r == Failed(Rejection(MissingOpfMessage))
    ensures !(zip.Loaded? && DaisyDetect.FindOpfEntry(zip.entries).Some?) ==> steps == []
    ensures zip.Loaded? && DaisyDetect.FindOpfEntry(zip.entries).Some? ==>
              var opfPath := DaisyDetect.FindOpfEntry(zip.entries).value;
              var run := RunSteps(AssemblySteps(opfPath, readOpf(opfPath)), rejects);
              && steps == run.performed
              && (run.rejection.Some? ==> r == Failed(HelperRejected(run.rejection.value)))
              && (run.rejection.None? ==> r.Parsed?)
    ensures r.Parsed? ==>
              var publication := r.publication;
              var opfPath := DaisyDetect.FindOpfEntry(zip.entries).value;
              && fresh(publication) && publication.Metadata != null && fresh(publication.Metadata)
              && publication.Context == [ReadiumContext]
              && publication.Metadata.RdfType == Some(BookRdfType)
              && publication.Metadata.AdditionalJson == readOpf(opfPath).additional
              && publication.Internal == map["filename" := Text(Paths.Basename(filePath)),
                                             "type" := Text("daisy"),
                                             "zip" := Archive(zip.entries)]
              && steps == AssemblySteps(opfPath, readOpf(opfPath))
  {
    steps := [];
    if zip.LoadFailed? {
      r := Failed(ZipLoadError(zip.cause));
      return;
    }
    var entries := zip.entries;
    if |entries| == 0 {
      r := Failed(Rejection(EmptyZipMessage));
      return;
    }

    var publication := NewDaisyPublication(Paths.Basename(filePath), entries);

    var opfZipEntryPath := DaisyDetect.FindOpfEntry(entries);
    if opfZipEntryPath.None? {
      r := Failed(Rejection(MissingOpfMessage));
      return;
    }
    // The entry found ends in ".opf", so it is never the empty string.
    var rootfilePath := opfZipEntryPath.value;
    var opf := readOpf(rootfilePath);

    r, steps := ParsePackage(publication, rootfilePath, opf, rejects);
    assert opfZipEntryPath == DaisyDetect.FindOpfEntry(zip.entries) && opf == readOpf(rootfilePath);
    if r.Parsed? {
      assert r.publication == publication;
      assert publication.Context == [ReadiumContext] && publication.Metadata.RdfType == Some(BookRdfType);
    }
  }

  /** The assembly helpers on the new publication; the first rejection of one settles the parse. */
  method ParsePackage(publication: Publication, opfPath: string, opf: Opf, rejects: AssemblyStep -> Option<string>)
    returns (r: ParseOutcome, steps: seq<AssemblyStep>)
    requires publication.Metadata != null
    modifies publication.Metadata
    ensures publication.Metadata.RdfType == old(publication.Metadata.RdfType)
    ensures var run := RunSteps(AssemblySteps(opfPath, opf), rejects);
            && steps == run.performed
            && (run.rejection.Some? ==> r == Failed(HelperRejected(run.rejection.value)))
            && (run.rejection.None? ==> r == Parsed(publication))
    ensures r.Parsed? ==> r.publication == publication
    ensures r.Parsed? ==> steps == AssemblySteps(opfPath, opf) && publication.Metadata.AdditionalJson == opf.additional
  {
    var failure;
    steps, failure := Assemble(publication.Metadata, opfPath, opf, rejects);
    if failure.Some? {
      r := Failed(HelperRejected(failure.value));
      return;
    }
    RunStepsCompletePerformed(AssemblySteps(opfPath, opf), rejects);
    r := Parsed(publication);
  }

  /** The new publication with its context, type and internal tags, before any helper runs. */
  method NewDaisyPublication(filename: string, entries: seq<string>) returns (publication: Publication)
    ensures fresh(publication) && publication.Metadata != null && fresh(publication.Metadata)
    ensures publication.Context == [ReadiumContext]
    ensures publication.Metadata.RdfType == Some(BookRdfType) && publication.Metadata.AdditionalJson.None?
    ensures publication.Internal == map["filename" := Text(filename), "type" := Text("daisy"), "zip" := Archive(entries)]
  {
    publication := new Publication();
    publication.Context := [ReadiumContext];
    var metadata := new Metadata();
    publication.Metadata := metadata;
    metadata.RdfType := Some(BookRdfType);
    publication.AddToInternal("filename", Text(filename));
    publication.AddToInternal("type", Text("daisy"));
    publication.AddToInternal("zip", Archive(entries));
  }

  // ---------------------------------------------------------------- addLinkData

  /** The three multimedia types that carry media overlays. */
  datatype MultimediaType = AudioFullText | TextNcx | AudioNcx

  /** The additional-metadata bag holds the string `value` under "dtb:multimediaType". */
  predicate MarkerIs(additional: Option<map<string, MetaValue>>, value: string)
  {
    additional.Some? && MultimediaTypeKey in additional.value && additional.value[MultimediaTypeKey] == MetaString(value)
  }

  /** The strict-equality tests of addLinkData on the multimedia-type marker. */
  function MultimediaTypeOf(additional: Option<map<string, MetaValue>>): (r: Option<MultimediaType>)
    ensures r == Some(AudioFullText) <==> MarkerIs(additional, "audioFullText")
    ensures r == Some(TextNcx) <==> MarkerIs(additional, "textNCX")
    ensures r == Some(AudioNcx) <==> MarkerIs(additional, "audioNCX")
  {
    match additional
    case None => None
    case Some(bag) =>
      if MultimediaTypeKey !in bag then None
      else match bag[MultimediaTypeKey]
        case MetaString(s) =>
          if s == "audioFullText" then Some(AudioFullText)
          else if s == "textNCX" then Some(TextNcx)
          else if s == "audioNCX" then Some(AudioNcx)
          else None
        case _ => None
  }

  /** `publication.Metadata?.AdditionalJSON["dtb:multimediaType"]`, classified. */
  function PublicationMultimediaType(publication: Publication): (r: Option<MultimediaType>)
    reads publication, publication.Metadata
    ensures publication.Metadata == null ==> r.None?
    ensures r == Some(AudioFullText) <==>
              publication.Metadata != null && MarkerIs(publication.Metadata.AdditionalJson, "audioFullText")
    ensures r == Some(TextNcx) <==> publication.Metadata != null && MarkerIs(publication.Metadata.AdditionalJson, "textNCX")
    ensures r == Some(AudioNcx) <==> publication.Metadata != null && MarkerIs(publication.Metadata.AdditionalJson, "audioNCX")
  {
    if publication.Metadata == null then None else MultimediaTypeOf(publication.Metadata.AdditionalJson)
  }

  /** The overlay helpers addLinkData calls. */
  datatype OverlayCall =
    | AddMediaOverlaySmil
    | LazyLoadMediaOverlays
    | UpdateDurations(duration: Option<real>)

  /**
   * The helper calls of addLinkData, given the multimedia type, whether the link
   * holds an overlay once addMediaOverlaySMIL has run, whether that overlay was
   * already loaded, the duration loading computes, and whether
   * addMediaOverlaySMIL or lazyLoadMediaOverlays rejects; a rejection ends the
   * calls.
   */
  function OverlayCalls(kind: Option<MultimediaType>, present: bool, initialized: bool, loaded: Option<real>,
                        smilFails: bool, loadFails: bool)
    : (calls: seq<OverlayCall>)
    ensures kind.None? ==> calls == []
    ensures kind.Some? ==> |calls| > 0 && calls[0] == AddMediaOverlaySmil
    ensures LazyLoadMediaOverlays in calls <==> kind.Some? && !smilFails && present && !initialized
    ensures (exists i :: 0 <= i < |calls| && calls[i].UpdateDurations?) <==>
              (kind == Some(AudioFullText) || kind == Some(AudioNcx)) && !smilFails && present && !initialized && !loadFails
    ensures forall i :: 0 <= i < |calls| && calls[i].UpdateDurations? ==>
              calls[i].duration == loaded && exists j :: 0 <= j < i && calls[j] == LazyLoadMediaOverlays
    ensures forall i, j :: 0 <= i < j < |calls| ==> calls[i] != calls[j]
  {
    if kind.None? then []
    else
      var isFullTextAudio, isAudioOnly := kind == Some(AudioFullText), kind == Some(AudioNcx);
      var calls := [AddMediaOverlaySmil] +
        (if !smilFails && present && !initialized then
           [LazyLoadMediaOverlays] + (if !loadFails && (isFullTextAudio || isAudioOnly) then [UpdateDurations(loaded)] else [])
         else []);
      assert !smilFails && present && !initialized && !loadFails && (isFullTextAudio || isAudioOnly) ==>
               calls[2].UpdateDurations?;
      calls
  }

  /** A text-only book never propagates durations. */
  lemma TextOnlyKeepsDurations(present: bool, initialized: bool, loaded: Option<real>, smilFails: bool, loadFails: bool)
    ensures forall c :: c in OverlayCalls(Some(TextNcx), present, initialized, loaded, smilFails, loadFails) ==>
              !c.UpdateDurations?
  {
  }

  /**
   * addLinkData. `attached` is the overlay addMediaOverlaySMIL attaches to the
   * link (null when the manifest item references none) and `loaded` the
   * duration lazyLoadMediaOverlays computes; loading marks the overlay
   * initialised. `smilRejects`, `loadRejects` and `durationsRejects` are the
   * causes with which addMediaOverlaySMIL, lazyLoadMediaOverlays and
   * updateDurations would reject or throw, if they would; a rejection ends
   * addLinkData with that cause, before anything the failing helper would have
   * changed.
   */
  method AddLinkData(publication: Publication, link: Link, attached: MediaOverlay?, loaded: Option<real>,
                     smilRejects: Option<string>, loadRejects: Option<string>, durationsRejects: Option<string>)
    returns (calls: seq<OverlayCall>, failure: Option<string>)
    modifies link, link.MediaOverlays, attached
    ensures var kind := PublicationMultimediaType(publication);
            var smilFails := kind.Some? && smilRejects.Some?;
            var mo := if kind.Some? && !smilFails && attached != null then attached else old(link.MediaOverlays);
            var loads := kind.Some? && !smilFails && mo != null && !old(mo.initialized);
            var loadFails := loads && loadRejects.Some?;
            && link.MediaOverlays == mo
            && calls == OverlayCalls(kind, mo != null, mo != null && old(mo.initialized), loaded, smilFails, loadFails)
            && failure == (if smilFails then smilRejects else if loadFails then loadRejects
                           else if UpdateDurations(loaded) in calls then durationsRejects else None)
            && (loads && !loadFails ==> mo.initialized && mo.duration == loaded)
            && (mo != null && !(loads && !loadFails) ==> unchanged(mo))
            && (attached != null && attached != mo ==> unchanged(attached))
            && (old(link.MediaOverlays) != null && old(link.MediaOverlays) != mo ==> unchanged(old(link.MediaOverlays)))
  {
    calls, failure := [], None;
    var kind := PublicationMultimediaType(publication);
    var isFullTextAudio := kind == Some(AudioFullText);
    var isTextOnly := kind == Some(TextNcx);
    var isAudioOnly := kind == Some(AudioNcx);
    if isFullTextAudio || isTextOnly || isAudioOnly {
      calls := calls + [AddMediaOverlaySmil];
      if smilRejects.Some? {
        failure := smilRejects;
        return;
      }
      if attached != null {
        link.MediaOverlays := attached;
      }
      var mo := link.MediaOverlays;
      if mo != null && !mo.initialized {
        calls := calls + [LazyLoadMediaOverlays];
        if loadRejects.Some? {
          failure := loadRejects;
          return;
        }
        mo.initialized := true;
        mo.duration := loaded;
        if isFullTextAudio || isAudioOnly {
          calls := calls + [UpdateDurations(mo.duration)];
          failure := durationsRejects;
        }
      }
    }
  }
}
