# DAISY detection and assembly, and contributor JSON shapes

A Dafny model of two pieces of a Readium-style publication library
(r2-shared for React Native):

* **DAISY talking books** (`src/parser/daisy.ts`). `isDaisyPublication` and
  `isLocalExploded` decide whether a locator is a DAISY book and in which access
  mode, through a short-circuiting chain of filesystem and zip probes.
  `DaisyParsePromise` opens the zip, refuses an empty one, tags a new
  `Publication`, finds the package document (the first `.opf` entry in zip
  order), runs the metadata and spine helpers, and chooses the NCX
  (navigation-control) document for the table of contents. `addLinkData`, the
  per-link hook handed to the spine builder, gates media-overlay attachment,
  lazy loading and duration propagation on the `dtb:multimediaType` marker.
* **Contributor JSON** (`test/test-JSON-Contributor.ts`). Contributor-like
  metadata fields serialise a one-item list as the bare element (both the
  contributor list and its `role` list). Deserialising accepts a bare string, a
  bare object, or an array of either, and always gives a list.

Module layout:

| file | module | contents |
|---|---|---|
| seqs.dfy | `Seqs` | `Option`, `Array.prototype.find`/`findIndex` as first-match search |
| strings.dfy | `Strings` | `endsWith` and ASCII lower-casing |
| paths.dfy | `Paths` | POSIX `path.basename` and `path.extname` of a basename |
| models.dfy | `Models` | the mutable `Publication`, `Metadata`, `Link`, `MediaOverlay` objects |
| daisy_detect.dfy | `DaisyDetect` | `isLocalExploded`, `isDaisyPublication` |
| daisy_parse.dfy | `DaisyParse` | NCX choice, `DaisyParsePromise`, `addLinkData` |
| contributor_json.dfy | `ContributorJson` | the JSON value type, the encoder, the decoder, the round trip |
| contributor_fixtures.dfy | `ContributorFixtures` | the test fixtures and what each test asserts about them |

How the outside world is represented:

* Every probe answer is an input (`DaisyDetect.Environment`): whether
  `isHTTP` holds of the locator, whether `new URL()` accepts it, the set of
  names below the locator for which `rnfs.stat` succeeds, and the result of
  loading the zip (a failure cause or the ordered entry list). Detection
  returns its outcome together with the list of probes it made, in order, so
  short-circuiting is stated as "this probe was never made".
* `zipHasEntry(zip, name)` is membership in the entry list and
  `zip.hasEntries()` is a non-empty entry list.
* The package document is the result of a given function `readOpf` of its zip
  path. Only its manifest items (`Href`, `MediaType`) and the additional
  metadata bag that `addOtherMetadata` derives from it are modelled.
* The helpers shared with the EPUB parser (`getOpf`, `addLanguage`, `addTitle`,
  `addIdentifier`, `addOtherMetadata`, `setPublicationDirection`,
  `findContributorInMeta`, `fillSpineAndResource`, `getNcx`, `fillTOC`,
  `fillSubject`, `fillPublicationDate`) are not part of this model. The parse
  returns the ordered list of helper calls it makes, with the arguments that
  matter here (the package path, the chosen NCX item).
* Whether each of those helper calls throws or rejects, and with what cause,
  is a given function `rejects` of the call. The first call that rejects is
  the last one made, and the parse promise rejects with its cause.
* In `addLinkData`, the overlay that `addMediaOverlaySMIL` attaches and the
  duration that `lazyLoadMediaOverlays` computes are inputs. Loading marks the
  overlay initialised and stores that duration. `updateDurations` is recorded
  as a call together with its argument. Whether `addMediaOverlaySMIL` or
  `lazyLoadMediaOverlays` rejects, or `updateDurations` throws, and with what
  cause, are inputs too; a failure ends `addLinkData` with that cause, so no
  later helper is called.

Behaviour worth noting:

* A remote (HTTP) locator gives `undefined` only when `new URL()` accepts it.
  Otherwise the URL constructor throws and the promise rejects
  (`Rejected(InvalidUrl)`).
* The DAISY parse takes the first zip entry ending in `.opf`, whatever its
  directory. Its fallback to a fixed `package.opf` name (daisy.ts:186) is
  commented out, so no other name is tried after the scan.
* In detection, the zip probes for the fixed package names `package.opf`,
  `Book.opf` and `speechgen.opf` (daisy.ts:92-96) are commented out. The
  `META-INF/container.xml` registry test before them (daisy.ts:89-91) is live:
  an archive holding that entry is never a DAISY book.
* The check that the found package path is non-empty can never fail, since an
  entry ending in `.opf` is never empty; the model leaves that branch out.

## Model

| member | source | states |
|---|---|---|
| `DaisyDetect.IsLocalExploded` | src/parser/daisy.ts:40-65 | succeeds exactly when one of `package.opf`, `Book.opf`, `speechgen.opf` exists and `META-INF/container.xml` does not; the probes are exactly the stats of the anchors up to and including the first present one, then the registry stat, or the three anchor stats when none is present; an anchor is stat-ed only if every earlier one is missing |
| `DaisyDetect.FirstAnchor` | src/parser/daisy.ts:42-54 | the anchor whose stat ends the cascade: present, with every earlier anchor missing; none exactly when no anchor is present |
| `DaisyDetect.ArchiveProbes` | src/parser/daisy.ts:83-98 | no probe is made twice; the archive is loaded first; the only entry tested is `META-INF/container.xml`, and it is tested before the entries are listed; the registry entry is tested exactly when the load succeeds; the entries are listed exactly when the load succeeds and the registry entry is absent |
| `DaisyDetect.HasDaisyExtension` | src/parser/daisy.ts:74 | the `/\.daisy[23]?$/` test on the lower-cased extension of the basename; `DaisyExtensionIsExact` gives its meaning |
| `DaisyDetect.IsDaisyPublication` | src/parser/daisy.ts:67-115 | never reports a remote mode; an HTTP locator makes no probe and gives `undefined` when `new URL()` accepts it and a rejection when it throws, and an invalid-URL rejection happens for nothing else; `LocalExploded` exactly when the locator is local, has no DAISY extension and exploded detection succeeds; `LocalPacked` exactly when local and either the extension matches or (exploded detection fails, the zip loads, has no `META-INF/container.xml` and some entry ends in `.opf`); a zip-load rejection exactly when local, no extension, exploded detection fails and loading fails; the zip is loaded exactly when both earlier steps fail; for a local locator without the extension the trace is exactly the exploded-detection trace, followed by the archive probes of `ArchiveProbes` when exploded detection fails; the registry is tested exactly after a successful load, and the entries are listed exactly after a successful load without a registry entry |
| `DaisyDetect.RemoteIgnoresProbes` | src/parser/daisy.ts:69-73 | for an HTTP locator the result does not depend on filesystem or zip answers, and is `undefined` with no probe when the URL parses |
| `DaisyDetect.ExtensionIgnoresProbes` | src/parser/daisy.ts:74-75 | a local locator with a DAISY extension is `LocalPacked` with no probe, whatever the filesystem and zip hold |
| `DaisyDetect.DaisyExtensionIsExact` | src/parser/daisy.ts:74 | the regular-expression test on the lower-cased extension holds exactly when the extension is `.daisy`, `.daisy2` or `.daisy3` |
| `DaisyDetect.UpperCaseExtensionMatches` | src/parser/daisy.ts:74-75 | `d/b.DAISY3` has a DAISY extension: case is ignored |
| `DaisyDetect.TrailingSlashSkipped` | src/parser/daisy.ts:74-75 | `d/b.daisy/` has a DAISY extension: trailing separators are skipped before the basename is taken |
| `DaisyDetect.DotFileHasNoExtension` | src/parser/daisy.ts:74 | a dot-file named `.daisy` has no extension, so it is not recognised by its name |
| `DaisyDetect.SuffixOfSingleDot` | src/parser/daisy.ts:74 | a string with a single leading dot that ends with a dot-led suffix equals that suffix |
| `DaisyDetect.ArchiveFallback` | src/parser/daisy.ts:80-114 | once exploded detection fails: a zip-load failure rejects with its cause; a registry entry gives `undefined`; otherwise `LocalPacked` when an `.opf` entry exists and `undefined` when none does |
| `DaisyDetect.FindOpfEntry` | src/parser/daisy.ts:98-103 | the result is the first entry, in zip order, ending in `.opf`, and is absent exactly when no entry does; a found entry is never empty |
| `Seqs.FindIndex` | src/parser/daisy.ts:177-181 | the index returned is the first position whose element satisfies the predicate; none is returned only when no element does |
| `Seqs.Find` | src/parser/daisy.ts:177-181 | the element returned is the one at the first matching position; none is returned exactly when nothing matches |
| `Seqs.FindIsFirst` | src/parser/daisy.ts:209-211 | given the first matching position, `find` returns the element there |
| `Paths.LastIndexOf` | src/parser/daisy.ts:74 | the position returned holds the character and no later position does; none only when the character is absent |
| `Paths.LastIndexOfAt` | src/parser/daisy.ts:74 | a position holding the character with no occurrence after it is the last occurrence |
| `Paths.StripTrailingSlashes` | src/parser/daisy.ts:74 | the result is a prefix without a trailing separator, and only separators are removed |
| `Paths.Basename` | src/parser/daisy.ts:162 | the basename holds no separator and ends the path once trailing separators are removed |
| `Paths.BasenameFollowsSeparator` | src/parser/daisy.ts:162 | the basename is the whole path with trailing separators removed, or the part after its last separator |
| `Paths.BasenameExt` | src/parser/daisy.ts:74 | the extension is empty or a single leading dot followed by non-dot, non-separator characters, and is a proper suffix of the basename; it is empty exactly when the basename is `..` or has no dot after its first character |
| `Strings.EndsWith` | src/parser/daisy.ts:102 | `String.prototype.endsWith`; `EndsWithSplits` gives its meaning |
| `Strings.EndsWithSplits` | src/parser/daisy.ts:180 | a string ends with a suffix exactly when it is some string followed by that suffix |
| `Strings.LowerChar` | src/parser/daisy.ts:74 | a dot stays a dot and nothing else becomes one; an upper-case ASCII letter becomes its lower-case letter (32 code points on); the result is never upper-case; other characters are unchanged |
| `Strings.Lower` | src/parser/daisy.ts:74 | lower-casing keeps the length, works character by character, leaves no upper-case ASCII letter, and leaves a string without one unchanged |
| `Models.Publication.constructor` | src/parser/daisy.ts:156 | a new publication has no context, no metadata and an empty internal map |
| `Models.Metadata.constructor` | src/parser/daisy.ts:158 | new metadata has no RDF type and no additional bag |
| `Models.Publication.AddToInternal` | src/parser/daisy.ts:162-165 | adds or replaces one internal entry and changes nothing else |
| `DaisyParse.DaisyParsePromise` | src/parser/daisy.ts:140-230 | a zip-load failure rejects with its cause; an empty zip rejects with "Daisy zip empty"; no `.opf` entry rejects with "OPF package XML file cannot be found."; no helper is called in those cases; otherwise the helpers of `AssemblySteps` for the package found first in zip order are called until one rejects, whose cause rejects the parse; when none rejects, a fresh publication with the Readium context, RDF type `http://schema.org/Book`, the package's metadata bag, internal `filename` = basename of the path, `type` = `daisy`, `zip` = the archive, and exactly the calls of `AssemblySteps` |
| `DaisyParse.NewDaisyPublication` | src/parser/daisy.ts:156-165 | a fresh publication with the Readium context, fresh metadata of RDF type `http://schema.org/Book` and no bag, and exactly the three internal tags `filename`, `type` = `daisy` and `zip` |
| `DaisyParse.ParsePackage` | src/parser/daisy.ts:191-229 | the helpers are run in order until one rejects; a rejection settles the parse with its cause, and otherwise the publication itself is returned, with every helper called and the package's metadata bag; the RDF type is kept |
| `DaisyParse.Assemble` | src/parser/daisy.ts:191-227 | the calls made and the rejection are those of running `AssemblySteps`; the metadata bag is the package's once `addOtherMetadata` (the fifth call) has been made and untouched before; the RDF type is kept |
| `DaisyParse.AssembleOpening` | src/parser/daisy.ts:191-197 | the calls made and the rejection are those of running `getOpf`, `addLanguage`, `addTitle` and `addIdentifier` in order |
| `DaisyParse.AssembleDescription` | src/parser/daisy.ts:199-205 | the calls made and the rejection are those of running `addOtherMetadata`, `setPublicationDirection`, `findContributorInMeta` and `fillSpineAndResource` in order; the bag is the package's; the RDF type is kept |
| `DaisyParse.AssembleNavigation` | src/parser/daisy.ts:207-227 | the NCX item it picks is that of `SelectNcx`; the calls made and the rejection are those of running `getNcx` on it (when one is picked), `fillTOC`, `fillSubject` and `fillPublicationDate` in order |
| `DaisyParse.AssemblySteps` | src/parser/daisy.ts:191-227 | the helper calls of a parse that no helper stops; `AssemblyStepsShape` gives its meaning |
| `DaisyParse.AssemblyStepsShape` | src/parser/daisy.ts:191-227 | the package is read first and dates are filled last; the table of contents receives the chosen NCX; an NCX is read exactly when one was chosen, it is the chosen one, and it is read before the table of contents is filled |
| `DaisyParse.RunSteps` | src/parser/daisy.ts:191-227 | awaiting the helpers in order, the first that throws or rejects ending the parse; `RunStepsMeaning` gives its meaning |
| `DaisyParse.RunStepsMeaning` | src/parser/daisy.ts:191-227 | a run of helpers completes exactly when none rejects, and then calls all of them; otherwise the calls made are a non-empty prefix of the plan whose last call is the rejecting one, every earlier call having succeeded |
| `DaisyParse.RunStepsAt` | src/parser/daisy.ts:191-227 | when helper `k` is the first to reject, exactly the helpers up to `k` are called and the run rejects with its cause |
| `DaisyParse.RunStepsAppend` | src/parser/daisy.ts:191-227 | running two groups of helpers in sequence: the second group starts only if the first completes |
| `DaisyParse.RunStepsCompletePerformed` | src/parser/daisy.ts:191-227 | a run that no helper rejected called every helper of its plan |
| `DaisyParse.RunStepsLength` | src/parser/daisy.ts:191-227 | a run calls no more helpers than its plan holds, and a rejected run called at least one |
| `DaisyParse.Perform` | src/parser/daisy.ts:191-227 | one more helper call after those made so far: the run of the extended plan; the helper is called exactly when no earlier one rejected |
| `DaisyParse.SelectNcx` | src/parser/daisy.ts:207-221 | no manifest gives no NCX; with a manifest an NCX is chosen exactly when some item has the canonical media type or is `text/xml` with an `.ncx` href; the first canonical item wins when one exists; otherwise the first `text/xml` `.ncx` item |
| `DaisyParse.CanonicalNcxPreferred` | src/parser/daisy.ts:209-217 | the first canonical NCX item is chosen even when a `text/xml` `.ncx` item comes earlier |
| `DaisyParse.MultimediaTypeOf` | src/parser/daisy.ts:236-244 | each of the three overlay-bearing types is recognised exactly when the marker is that exact string |
| `DaisyParse.PublicationMultimediaType` | src/parser/daisy.ts:236-244 | no metadata gives no type; each of the three types is recognised exactly when the publication has metadata whose bag holds that exact marker string |
| `DaisyParse.OverlayCalls` | src/parser/daisy.ts:246-257 | no call at all unless the marker is one of the three; then the overlay is attached first; loading happens exactly when attaching did not reject and an overlay is present and not yet initialised; durations are propagated exactly for `audioFullText`/`audioNCX` after a load that did not reject, with the loaded duration, and always after the load; no helper is called twice |
| `DaisyParse.TextOnlyKeepsDurations` | src/parser/daisy.ts:253-255 | a `textNCX` book never propagates durations |
| `DaisyParse.AddLinkData` | src/parser/daisy.ts:232-259 | a rejection of `addMediaOverlaySMIL` or of `lazyLoadMediaOverlays` ends it with that cause; a throw of `updateDurations` fails it with that cause exactly when `updateDurations` is called; there is no other failure; the link's overlay is the attached one (or the previous one when nothing is attached or attaching rejected); the calls are those of `OverlayCalls`; an overlay present and not yet initialised becomes initialised with the loaded duration unless loading rejects; every other overlay object, and the overlay whose load rejected, is left unchanged |
| `ContributorJson.EncodeName` | test/test-JSON-Contributor.ts:45-56 | a plain name is written as a string; a language map as an object with the same languages and strings |
| `ContributorJson.EncodeRole` | test/test-JSON-Contributor.ts:70-73 | one role is written as a bare string; any other number of roles as an array of the same strings in order |
| `ContributorJson.EncodeContributor` | test/test-JSON-Contributor.ts:58-87 | a contributor is an object whose `name`, `identifier`, `position` and `role` keys are present exactly when the field is, each holding the field's encoding, and no other key |
| `ContributorJson.EncodeContributors` | test/test-JSON-Contributor.ts:123-159 | one contributor collapses to the bare object; any other number gives an array of the same length whose elements encode the contributors in order |
| `ContributorJson.DecodeString` | test/test-JSON-Contributor.ts:64-65 | only a JSON string decodes, to its own text |
| `ContributorJson.DecodeNumber` | test/test-JSON-Contributor.ts:67-68 | only a JSON number decodes, to its own value |
| `ContributorJson.DecodeName` | test/test-JSON-Contributor.ts:45-56 | a string becomes a plain name; an object decodes exactly when all its values are strings, and then becomes a language map with the object's keys and strings; only strings and objects decode |
| `ContributorJson.DecodeRole` | test/test-JSON-Contributor.ts:107-119 | a bare string becomes a one-item role list; an array decodes exactly when all its elements are strings, keeping their order |
| `ContributorJson.DecodeField` | test/test-JSON-Contributor.ts:161-178 | an absent key is an absent field; a present key decodes exactly when its value does |
| `ContributorJson.DecodeContributorObject` | test/test-JSON-Contributor.ts:161-178 | an object decodes exactly when each of the four known keys that is present has a value of the right shape; each field is present exactly when its key is, holding the decoded value |
| `ContributorJson.DecodeItem` | test/test-JSON-Contributor.ts:213-230 | a bare string is a contributor with that plain name and nothing else; an object decodes as a contributor object; only strings and objects decode |
| `ContributorJson.DecodeItems` | test/test-JSON-Contributor.ts:161-178 | an array decodes exactly when every element does, to a list of the same length whose elements are the elements' decodings in order |
| `ContributorJson.DecodeContributors` | test/test-JSON-Contributor.ts:161-294 | an array decodes element-wise; a bare string or object decodes to the one-item list of its decoding; other values do not decode |
| `ContributorJson.NameRoundTrip` | test/test-JSON-Contributor.ts:45-56 | a name read back after writing is the same name |
| `ContributorJson.RoleRoundTrip` | test/test-JSON-Contributor.ts:70-73 | a role list read back after writing is the same list, the collapsed single role included |
| `ContributorJson.ContributorRoundTrip` | test/test-JSON-Contributor.ts:58-119 | a contributor read back after writing is the same contributor |
| `ContributorJson.RoundTrip` | test/test-JSON-Contributor.ts:123-178 | any contributor list read back after writing is the same list, in the same order, the collapsed one-item list included |
| `ContributorJson.BareObjectIsOneItem` | test/test-JSON-Contributor.ts:180-211 | a bare contributor object and the one-item array of it both read as the same one-item list |
| `ContributorJson.BareStringIsOneName` | test/test-JSON-Contributor.ts:232-278 | a bare string and a one-string array both read as one contributor of that plain name |
| `ContributorJson.LangMapNameKept` | test/test-JSON-Contributor.ts:280-294 | an object holding only a language-map name reads as one contributor with that map as name |
| `ContributorFixtures.EncodesNameMap` | test/test-JSON-Contributor.ts:45-56 | the second fixture's language-map name is written as an object of strings |
| `ContributorFixtures.EncodesContributor1` | test/test-JSON-Contributor.ts:23-87 | the first fixture is written with all four keys and its role array |
| `ContributorFixtures.EncodesContributor2` | test/test-JSON-Contributor.ts:23-87 | the second fixture is written with a language-map name, no position and its single role as a bare string |
| `ContributorFixtures.SerialiseTwoContributors` | test/test-JSON-Contributor.ts:123-140 | the two-contributor list is written as the array of both objects, in order |
| `ContributorFixtures.SerialiseOneContributorCollapses` | test/test-JSON-Contributor.ts:142-159 | the one-contributor list is written as the bare object |
| `ContributorFixtures.DeserialiseTwoContributors` | test/test-JSON-Contributor.ts:161-178 | the array of both objects reads back as both contributors, in order |
| `ContributorFixtures.DeserialiseOneContributor` | test/test-JSON-Contributor.ts:180-211 | a one-object array and the bare object both read as the one-item list |
| `ContributorFixtures.DeserialiseNameArray` | test/test-JSON-Contributor.ts:213-230 | an array of a bare name and a `{name: langMap}` object reads as two contributors with those names, in order |
| `ContributorFixtures.DeserialiseOneName` | test/test-JSON-Contributor.ts:232-294 | one string or one `{name: langMap}` object, bare or in a one-item array, reads as one contributor with that name |

## Left out

- Filesystem, zip and network I/O, Promise sequencing and `debug` logging: probe answers are inputs.
- `isHTTP` and the URL parser: their verdicts on the locator are inputs.
- `Metadata.Modified` (the parse timestamp): wall-clock time.
- The helpers of `epub-daisy-common` (see above): only their call order, the arguments chosen here and whether they reject are modelled, and `fillSpineAndResource` is not shown calling `addLinkData` for each link.
- DaisyParse.Assemble: the additional-metadata bag is set as `addOtherMetadata` is called, whether or not that call then rejects; what the helper writes before throwing is not modelled.
- DaisyParse.AssembleDescription: sets the additional-metadata bag before `addOtherMetadata` is run, so the bag is set even when that call rejects, for the same reason.
- DaisyParse.AddLinkData: a rejecting `addMediaOverlaySMIL` is taken to attach nothing, and a rejecting `lazyLoadMediaOverlays` to leave the overlay as it was; when `updateDurations` throws, the overlay stays loaded and initialised; what those helpers change before rejecting is not part of this model.
- Reading-order invariants and building the NCX tree: they belong to the helpers above.
- The XML mapping of the package document, the NCX and SMIL documents, and the comic-metadata and package-document schema records: only the manifest list shape is used.
- `src/transform/transformer-lcp.ts`: a wrapper around a foreign LCP decryption engine and its stream plumbing.
- The serialiser's reflection and converter machinery and the native LCP plugin set-up: only the asserted JSON shapes are modelled.
- Contributor fields other than `name`, `identifier`, `position` and `role`, and JSON key order: objects are maps.
- `position` is an integer, as in the fixtures; JavaScript numbers are not modelled.
- Strings.Lower: covers the ASCII letters only, where JavaScript's `toLowerCase` maps all of Unicode. For the `.daisy`, `.daisy2` and `.daisy3` match the outcome is the same. Only two non-ASCII characters lower-case to something holding an ASCII letter, and none to a dot. U+212A (the Kelvin sign) gives `k`, which is not a letter of `daisy`. U+0130 gives `i` followed by the combining U+0307, so the `i` is never followed by the `s` that `.daisy` needs.
- Decoding failures (a known key with a value of the wrong shape, or a top-level value that is not a string, object or array) give no result. The tests do not pin what the library does in those cases.
- Path handling is POSIX only (forward slashes), as on the mobile platforms the library targets.
