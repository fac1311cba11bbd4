# Verified model of the Mish release and packaging scripts

This project models the scripts that build, sanitise, sign, stage and clean up releases of Mish, and
proves what they are relied on for. It follows the scripts file by file: code that works in place is
modelled by arrays, classes and loops and proved against a functional description; the properties are
lemmas about that description. `dafny verify dfyconfig.toml` checks everything.

- **Disk image normaliser** (`Hfs*.dfy`, `Bytes.dfy`). Two builds of the same content become
  byte-identical. `HfsVolume` describes the scan, the extents and the catalog walk after Apple
  Technical Note TN1150, sections "Volume Header", "B-Trees" and "Catalog File"; `HfsNormalizer` is the
  procedure over byte arrays.
- **Draft staging** (`Release*.dfy`). The remote is a state machine with atomic steps; other writers may
  interleave and a stager may stop anywhere.
- **Transcript sanitiser** (`Pseudonyms.dfy`, `Transcript*.dfy`, `Text.dfy`, `JsonText.dfy`). A two-pass
  compiler that replaces identifiers by pseudonyms and validates its own output, down to its printed size.
- **Signed release evidence** (`Checksums.dfy`, `Sign*.dfy`). Ordered stages, cleanup under every
  failure, and the finalised candidate directory. **Package manifest** (`Package*.dfy`).
- **Smaller algorithms**: `JsonStream.dfy` (RFC 8259, sections 2 to 7), `GradlePin.dfy`,
  `Frontmatter.dfy`, `Worklists.dfy`, `ProcessStop.dfy`.

Where the scripts do not do what one might expect, the model keeps the code and states exactly when:

- Reading the remote release state takes two requests. A concurrent identical stager can come between
  them, and the planner then refuses its own progress (`ReleaseStaging.TornReadIsReachable`); this is the
  only way identical Alpha stagers can fail.
- A second normalisation can be refused. The last byte of the Finder date is zero, so a date split over
  two extents may complete a header signature; `HfsExample.SecondRunIsRefused` gives an image, and
  `HfsStability.NormalizeTwiceExactly` says for which images the second run changes nothing.
- Pinning the Gradle wrapper twice differs from pinning once on one family of texts
  (`GradlePin.PinIdempotent`).
- The compiler refuses a transcript whose service or interface name happens to occur in the wording of
  its privacy summary: `TranscriptExample.RenamingMatters` gives two transcripts that differ in a name
  only, and `TranscriptCompiler.CompileIgnoresNames` says exactly when renaming changes the outcome.
- Fixture identifiers have no length limit of their own, so an overlong one makes the compiler reject its
  own fixture (`TranscriptExample.CompileExamples`); `TranscriptSize.FixtureIsValidExactly` gives the limit.
- In design tokens a quoted text that looks like a number is read as a number
  (`Frontmatter.QuotedNumberExample`, `Frontmatter.UniqueKeysKept`).

Digests, URL parsing, JSON parsing, the printed form of evidence and manifests, and the regular
expressions for versions and identifiers are function parameters. Clocks, processes, commands, files and other writers are arbitrary:
their outcomes are chosen at every step, and contracts hold for all of them.

## Model

| member | source | states |
|---|---|---|
| `HfsNormalizer.NormalizeHfsMetadata` | scripts/macos-dmg-presentation.ts:256-424 | The in-place procedure over byte arrays returns, for every image, exactly the bytes or the error of the functional description `Normalize`; a refused image is never written |
| `HfsNormalizer.FindCandidates` | scripts/macos-dmg-presentation.ts:263-281 | Resuming four bytes after each signature still finds every plausible header, once and in order |
| `HfsNormalizer.FindPairs` | scripts/macos-dmg-presentation.ts:282-292 | The pairs found are exactly the offsets that have an alternate header where the arithmetic puts it |
| `HfsVolume.PrimariesFromExact` | scripts/macos-dmg-presentation.ts:282-296 | The list of primaries holds every offset that is a primary header with its alternate, and nothing else |
| `HfsNormalizer.StampHeaderBytes` | scripts/macos-dmg-presentation.ts:306-311 | In place: the header gets its four dates and volume identifier, every other byte stays |
| `HfsNormalizer.GatherExtents` | scripts/macos-dmg-presentation.ts:325-353 | The eight extent records are accepted exactly as described, and the buffer then holds their bytes in file order |
| `HfsNormalizer.WalkNodesBytes` | scripts/macos-dmg-presentation.ts:371-412 | The in-place walk leaves the catalog, the counts and the errors of the functional walk; every access stays in the buffer |
| `HfsNormalizer.StampCatalogBytes` | scripts/macos-dmg-presentation.ts:355-415 | The header node checks, the walk and the inventory check, refined in place |
| `HfsNormalizer.ScatterExtents` | scripts/macos-dmg-presentation.ts:418-423 | In place: each extent gets its part of the catalog, in order, and nothing else changes |
| `HfsExtents.ScatterAfterGather` | scripts/macos-dmg-presentation.ts:325-353 | Writing back what was gathered changes nothing, even if extents overlap |
| `HfsExtents.GatherAfterScatter` | scripts/macos-dmg-presentation.ts:417-423 | Over disjoint extents, gathering returns exactly what was scattered |
| `HfsExtents.PhysicalInjective` | scripts/macos-dmg-presentation.ts:340-348 | Disjoint extents never map two catalog bytes to the same image byte |
| `HfsExtents.ScatterCongruent` | scripts/macos-dmg-presentation.ts:417-423 | Images that agree outside the extents become equal once the same catalog is written |
| `HfsCatalog.WalkNodesFrame` | scripts/macos-dmg-presentation.ts:371-412 | Whatever the catalog holds, a changed byte is a date byte of a stamped record and lies in a leaf before its offset table |
| `HfsCatalog.WalkNodesTwoPhase` | scripts/macos-dmg-presentation.ts:371-412 | When records do not overlap, stamping while walking equals reading the whole tree first and stamping afterwards |
| `HfsCatalog.SpacedNodesCongruent` | scripts/macos-dmg-presentation.ts:383-396 | Two catalogs that differ only in date bytes have the same records, at the same places |
| `HfsTheorems.StampCatalogFrame` | scripts/macos-dmg-presentation.ts:355-415 | A successful catalog pass keeps the length, stamps something, and writes only date bytes of records before the offset table |
| `HfsTheorems.NormalizeFrame` | scripts/macos-dmg-presentation.ts:256-424 | For every image on which normalisation succeeds: the length stays, and a byte differs only in a header date, a volume identifier or the image of a stamped date |
| `HfsTheorems.PrimarySurvives` | scripts/macos-dmg-presentation.ts:264-296 | Images of the same content agree on the geometry the scan and the extent reader use |
| `HfsTheorems.NormalizeVolumeCongruent` | scripts/macos-dmg-presentation.ts:297-423 | Two images of the same content go through the volume step to the same bytes or the same error |
| `HfsTheorems.NormalizeDeterministic` | scripts/macos-dmg-presentation.ts:256-424 | Two builds of the same content become byte-identical, exactly when the second one also shows one header pair; otherwise it is refused |
| `HfsStability.RunKeepsContent` | scripts/macos-dmg-presentation.ts:297-423 | Normalising keeps every byte that is not build-dependent |
| `HfsStability.NormalizeIdempotent` | scripts/macos-dmg-presentation.ts:256-424 | A second run returns the same image exactly if one header pair is left, and is refused otherwise |
| `HfsStability.SignaturesExactly` | scripts/macos-dmg-presentation.ts:264-296 | The header signatures of the result, told from the image before the run: those that are content, and those that lack only a byte which ends a Finder date |
| `HfsStability.SettledExactly` | scripts/macos-dmg-presentation.ts:297-423 | Every byte of the result, told from the image before the run: a fixed stamp, or the byte as it was |
| `HfsStability.NormalizeTwiceExactly` | scripts/macos-dmg-presentation.ts:256-424 | On an image whose only header signatures are its pair, normalising twice equals normalising once if and only if, reading signatures and header fields from the image itself and from the fixed stamps, no other header with its alternate lacks just the end of a Finder date |
| `HfsStability.NormalizeTwiceUncompleted` | scripts/macos-dmg-presentation.ts:256-424 | So it does whenever no place of the image lacks a header signature by the end of a Finder date only |
| `HfsStability.NormalizeTwice` | scripts/macos-dmg-presentation.ts:264-296 | In particular whenever no Finder date is split over two extents |
| `HfsExample.SecondRunIsRefused` | scripts/macos-dmg-presentation.ts:264-296 | A concrete image with only the signatures of its pair, everything apart, whose first normalisation succeeds and whose second is refused |
| `HfsExample.ImageIsWellFormed` | scripts/macos-dmg-presentation.ts:256-424 | That image meets every condition of the theorems above |
| `HfsStability.NormalizedDates` | scripts/macos-dmg-presentation.ts:298-301 | Every file and folder record of the result reads 2020-01-01T00:00:00Z, in both epochs |
| `HfsStability.NormalizedHeaders` | scripts/macos-dmg-presentation.ts:306-311 | Both headers of the result carry the fixed dates and volume identifier |
| `ReleasePlan.LocalErrorExact` | scripts/macos-alpha-release.ts:483-493 | The request checks accept exactly well-formed requests; the signed kind also needs every expected asset, once |
| `ReleasePlan.AssetErrorsExact` | scripts/macos-alpha-release.ts:533-559 | Checking asset by asset accepts exactly lists of distinct expected names, each with the size and digest of the local file |
| `ReleasePlan.PlanAcceptsExactly` | scripts/macos-alpha-release.ts:482-568 | The planner accepts exactly the remote states that hold only the progress of this request |
| `ReleasePlan.PlanSchedulesExactly` | scripts/macos-alpha-release.ts:506-568 | An accepted plan creates the tag, the release and the assets exactly where they are missing, and is already staged exactly on the complete draft |
| `ReleasePlan.CheckAssets` | scripts/macos-alpha-release.ts:533-560 | The loop over remote assets reports the first error of the list, or the names seen and matched |
| `ReleasePlan.PlanStaging` | scripts/macos-alpha-release.ts:482-568 | The planner as run, with its sets and lists, equals the planning function proved about above |
| `ReleaseRuns.ApplyKeepsProgress` | scripts/macos-alpha-release.ts:766-819 | Every atomic step of a stager of the request keeps the remote within the progress of that request |
| `ReleaseRuns.EveryPrefixIsAccepted` | scripts/macos-alpha-release.ts:766-819 | However stagers of one request interleave and wherever they stop, the planner accepts what they leave, the tag is never moved and nothing is lost |
| `ReleaseRuns.NeededCompletes` | scripts/macos-alpha-release.ts:766-819 | From every accepted state the missing steps are legal and end with the complete draft |
| `ReleaseRuns.StagedNeedsNothing` | scripts/macos-alpha-release.ts:560-567 | Once staged, a further run has nothing to do |
| `ReleaseStaging.ReleaseClient.GetState` | scripts/macos-alpha-release.ts:668-683 | Reading takes two requests; with writers between them the tag may be older than the release |
| `ReleaseStaging.TornReadIsReachable` | scripts/macos-alpha-release.ts:668-683 | A concrete interleaving of a read with an identical stager shows a release without its tag, and the planner refuses it |
| `ReleaseStaging.MutateAndObserve` | scripts/macos-alpha-release.ts:776-800 | One mutation, tolerated create race or not, and the re-read: what is then known of the remote under each kind of interference |
| `ReleaseStaging.PrepareDraft` | scripts/macos-alpha-release.ts:776-800 | The tag and release steps end with both present, and alone request exactly the missing ones |
| `ReleaseStaging.UploadMissing` | scripts/macos-alpha-release.ts:802-813 | The loop over the list of missing assets as it was on entry lands every one of them, although the plan is reassigned inside |
| `ReleaseStaging.Advance` | scripts/macos-alpha-release.ts:776-813 | Everything after the first read: complete among friendly stagers, exactly the needed steps when alone |
| `ReleaseStaging.StageVerifiedRelease` | scripts/macos-alpha-release.ts:766-819 | Under any interference a normal real run has observed the complete verified draft; among identical stagers it fails exactly on a torn first read; alone it makes exactly the needed mutations; a dry run makes none |
| `ReleaseStaging.StageSignedRelease` | scripts/macos-signed-release.ts:1859-1903 | The same for the signed kind, which tolerates no upload conflict: it fails exactly on a torn read or a refused upload |
| `Pseudonyms.PseudonymInjective` | scripts/macos-platform-transcript.ts:202-220 | Names of different kinds or numbers are different texts |
| `Pseudonyms.FindFree` | scripts/macos-platform-transcript.ts:252-257 | The search for a free name ends, after at most as many steps as there are taken names, at the first free one |
| `Pseudonyms.PseudonymTable.Map` | scripts/macos-platform-transcript.ts:227-243 | Before sealing it reserves the value; afterwards it returns a name exactly for reserved values |
| `Pseudonyms.PseudonymTable.Seal` | scripts/macos-platform-transcript.ts:245-265 | Sealing names everything reserved and cannot be repeated |
| `Pseudonyms.SealedName` | scripts/macos-platform-transcript.ts:245-265 | Every name is a pseudonym of its kind, is no real value, and its number is at most the identifiers of the kind plus all identifiers |
| `Pseudonyms.SealedInjective` | scripts/macos-platform-transcript.ts:245-265 | Different identifiers get different names, within a kind and across kinds |
| `Pseudonyms.SealedByRank` | scripts/macos-platform-transcript.ts:245-265 | Without look-alikes among the identifiers, the number is the rank of first use |
| `TranscriptParse.KeyValueLines` | scripts/macos-platform-transcript.ts:177-189 | The field loop returns the map or the first error of the functional reading |
| `TranscriptAgreement.StrictLinesReadBack` | scripts/macos-platform-transcript.ts:155-175 | Every list of at most 256 lines of the kind the compiler prints is read back unchanged by its own strict reader |
| `TranscriptAgreement.NothingForbidden` | scripts/macos-platform-transcript.ts:155-163 | No text made of such lines contains a forbidden shape |
| `TranscriptRenaming.SourcesRenamed` | scripts/macos-platform-transcript.ts:222-243 | Under a renaming that is one-to-one within kinds, the order of first use is kept |
| `TranscriptRenaming.NamesAgree` | scripts/macos-platform-transcript.ts:245-265 | Both tables give an identifier and its new name the same pseudonym |
| `TranscriptRenaming.FixtureIgnoresNames` | scripts/macos-platform-transcript.ts:1052-1171 | Two transcripts that differ by such a renaming, avoiding synthetic names, give the same fixture |
| `TranscriptValidity.RequestsCount` | scripts/macos-platform-transcript.ts:1053-1082 | No accepted transcript mentions more than 77 identifiers |
| `TranscriptValidity.NameIsSmall` | scripts/macos-platform-transcript.ts:202-220 | So every number is at most 154, and port names stay five digits beginning with 4 |
| `TranscriptValidity.ManualClosed` | scripts/macos-platform-transcript.ts:926-943 | Every printed manual proxy passes the closed schema for manual proxies |
| `TranscriptClosed.PacClosed` | scripts/macos-platform-transcript.ts:944-954 | Every printed PAC answer passes its closed schema |
| `TranscriptClosed.BypassClosed` | scripts/macos-platform-transcript.ts:955-965 | Every printed bypass list passes its closed schema |
| `TranscriptClosed.ServiceOrderClosed` | scripts/macos-platform-transcript.ts:918-925 | The printed service order passes its closed schema |
| `TranscriptSize.TextIsFrameAndId` | scripts/macos-platform-transcript.ts:996-999 | The printed fixture, indented JSON, is as long as its frame and its identifier together |
| `TranscriptSize.FixtureIsValidExactly` | scripts/macos-platform-transcript.ts:782-1000 | Compiler and validator agree: the fixture of any accepted transcript is valid if and only if its identifier fits into what the frame leaves of 65,536 bytes; identifiers of at most 27,536 characters always do, and of more than 65,536 never |
| `TranscriptSummary.ForeignNeverLeaks` | scripts/macos-platform-transcript.ts:1173-1195 | A name with a capital letter that the wording of the summary leaves out is never repeated by it |
| `TranscriptCompiler.SanitizeGetter` | scripts/macos-platform-transcript.ts:341-428 | One routine for both passes: unsealed it only reserves, sealed it only looks up, and prints the described lines |
| `TranscriptCompiler.Collect` | scripts/macos-platform-transcript.ts:1053-1081 | The first pass reserves exactly what the transcript mentions, in order |
| `TranscriptCompiler.Emit` | scripts/macos-platform-transcript.ts:1083-1140 | The second pass meets only reserved values and never exceeds the output limit |
| `TranscriptCompiler.Compile` | scripts/macos-platform-transcript.ts:1002-1198 | The compiler fails only by failing to parse or in one of its two last checks; no unreserved value, oversized output or second sealing occurs |
| `TranscriptCompiler.CompilesExactly` | scripts/macos-platform-transcript.ts:1172-1197 | An accepted transcript compiles exactly if the summary, as worded, repeats neither the service nor the interface name and the identifier fits |
| `TranscriptCompiler.CompileIgnoresNames` | scripts/macos-platform-transcript.ts:1002-1198 | Two raw transcripts that read as renamings of each other give the same fixture, and the same outcome if and only if the summary would repeat a name of both or of neither |
| `TranscriptExample.RenamingMatters` | scripts/macos-platform-transcript.ts:1192-1195 | Two concrete transcripts that differ in one interface name: `a` is refused because the wording repeats it, `W` compiles |
| `TranscriptExample.CompileExamples` | scripts/macos-platform-transcript.ts:1002-1198 | The compiler on these transcripts, and on one with an identifier of 65,537 letters, which the size limit refuses |
| `JsonStream.StreamRoundTrip` | scripts/build-mobile-core.ts:419-444 | Any list of JSON objects in any concrete syntax, with any white space around them, is split into exactly those texts in order |
| `JsonStream.ValueSkipped` | scripts/build-mobile-core.ts:425-441 | Inside an object every JSON value, with its strings, escapes and nested braces, leaves the scanner as it was |
| `JsonStream.SlicesAreBlocks` | scripts/build-mobile-core.ts:419-444 | On arbitrary input the slices are exactly the stretches from a step from depth 0 to 1 to the matching close, all of them, disjoint and in order |
| `JsonStream.ParseJsonStream` | scripts/build-mobile-core.ts:419-444 | The loop hands exactly those slices to the parser and fails exactly when it fails |
| `GradlePin.PinAndroidGradleWrapper` | scripts/android-gradle-wrapper.ts:35-62 | The rewriting loop equals the described pinning, for every text |
| `GradlePin.ValidateAndroidGradleWrapper` | scripts/android-gradle-wrapper.ts:64-98 | The validating loop reports exactly the described problems |
| `GradlePin.PinValidates` | scripts/android-gradle-wrapper.ts:35-98 | Every pinned text is valid |
| `GradlePin.PinKeepsLines` | scripts/android-gradle-wrapper.ts:35-62 | All other lines survive in order; an unsettled text loses just its trailing carriage return |
| `GradlePin.PinIdempotent` | scripts/android-gradle-wrapper.ts:35-62 | Pinning twice equals pinning once exactly if the text is not unsettled: no critical line, no CRLF, and a last line that is the first distributionBase line and ends with a lone carriage return |
| `GradlePin.PinSettles` | scripts/android-gradle-wrapper.ts:35-62 | A pinned text is settled, so a third pass never changes anything |
| `GradlePin.UnsettledExample` | scripts/android-gradle-wrapper.ts:53-59 | A concrete text on which pinning twice differs from pinning once |
| `Frontmatter.ParseFrontmatter` | scripts/check-design-tokens.ts:13-40 | The loop with its stack and shared objects yields the store of the step-by-step description |
| `Frontmatter.PopKeepsStack` | scripts/check-design-tokens.ts:25 | Popping for any indentation keeps the root at the bottom and the indents strictly increasing |
| `Frontmatter.TokensParsed` | scripts/check-design-tokens.ts:17-37 | Parsing one level of a printed tree adds exactly its meaning to the current object and touches no other existing object |
| `Frontmatter.RoundTrip` | scripts/check-design-tokens.ts:13-40 | Parsing rebuilds every printed token tree, for any strictly deeper indentation, any blanks and quoting, and unrelated lines in between |
| `Frontmatter.UniqueKeysKept` | scripts/check-design-tokens.ts:28-37 | With unique keys every token is found under its key; a text is read as a string exactly if it does not look like a number |
| `Frontmatter.QuotedNumberExample` | scripts/check-design-tokens.ts:28-37 | A concrete quoted number that comes back as a number |
| `Worklists.HasDependencyPath` | scripts/check-platform-dependency-boundary.ts:52-69 | Terminates and answers yes exactly if a nonempty path through named graph keys reaches the target |
| `Worklists.ProductionWebGraph` | scripts/check-profile-patch-editor-removal.ts:263-278 | Terminates with exactly the present sources that imports reach from the entries, each with its text |
| `Worklists.SearchDone` | scripts/check-platform-dependency-boundary.ts:57-68 | An empty list with the loop invariant means that exactly the reachable names were visited |
| `ProcessStop.WaitForOwnedProcesses` | scripts/clean-macos-app.ts:277-301 | Polling follows the description of a wait, event by event and result by result, for every sequence of tables |
| `ProcessStop.WaitOnlyWatches` | scripts/clean-macos-app.ts:277-301 | A wait only reads and pauses, at most the given time; it reports exactly what its last read still lists, and something only after the whole time |
| `ProcessStop.SafelyStopMish` | scripts/clean-macos-app.ts:303-329 | Follows the description of a safe stop exactly, failures included |
| `ProcessStop.SafeStopIsSafe` | scripts/clean-macos-app.ts:303-329 | A safe stop sends no signal and asks only installed desktops to quit; a normal return means the last read held none of the controllable processes |
| `ProcessStop.ForceStopMish` | scripts/clean-macos-app.ts:331-367 | Follows the four phases of a forced stop exactly, each entered only if the one before went through |
| `ProcessStop.ForceStopIsSafe` | scripts/clean-macos-app.ts:331-367 | For every sequence of process tables: a signal goes only to a process controllable at the start and listed in the read just before it; kills come after the full grace period; at most 24 pauses; a normal return means the last read held none |
| `ProcessStop.ApplyCleanup` | scripts/clean-macos-app.ts:212-248 | Nothing happens with blockers or without a user; otherwise all agents are unregistered before the first removal, and targets go in order up to the first failure |
| `ProcessStop.RunCleanup` | scripts/clean-macos-app.ts:566-588 | Both cleaning actions follow their description exactly: force only after a failed safe stop, then an empty table, the proxy, a fresh inspection, and the removals |
| `ProcessStop.RemovalIsGuarded` | scripts/clean-macos-app.ts:566-588 | Whatever is removed was listed by an inspection without blockers directly before; for `all` that inspection follows the stop, an empty table and the restored proxy |
| `Checksums.ParsePrint` | scripts/macos-signed-release.ts:1471-1501 | Parsing undoes printing, in order, for every nonempty list of named digests |
| `Checksums.PrintParse` | scripts/macos-signed-release.ts:1471-1482 | Printing undoes parsing up to white space at the very end |
| `Checksums.ParseChecksums` | scripts/macos-alpha-release.ts:422-432 | The loop of both parsers returns the entries in order or the first error |
| `SignedEvidence.Recorder.Confirm` | scripts/macos-signed-release.ts:525-541 | Accepts exactly the next stage of the list with a safe detail; anything else changes nothing |
| `SigningCleanup.CleanupSigningMaterials` | scripts/macos-signed-release.ts:692-767 | For every combination of answers the host sees exactly the described commands and removals in order, and the outcome is the described one |
| `SigningCleanup.CleanupIsThorough` | scripts/macos-signed-release.ts:700-767 | Once the root is found, all four sensitive files and then the root are attempted whatever fails; a normal return means exactly that nothing failed and the root was seen gone |
| `SigningCleanup.SuccessMeansRemoved` | scripts/macos-signed-release.ts:731-767 | A cleanup that found the root and returned normally has removed every sensitive file and the root |
| `SigningRun.Sign` | scripts/macos-signed-release.ts:1193-1281 | The guarded work follows its plan of commands and stages, in order, up to the first failure, and fails for that reason |
| `SigningRun.Execute` | scripts/macos-signed-release.ts:1152-1312 | A run is exactly preparation, guarded work, cleanup and conclusion, each with its reason to stop; a failed cleanup outweighs a failure before it, and evidence comes with exactly sixteen recorded stages |
| `SigningRun.RunIsGuarded` | scripts/macos-signed-release.ts:1193-1288 | Whatever fails, signing material is created only where a whole cleanup follows, and the cleanup stage is recorded only after one that returned normally |
| `SigningRun.EvidenceHolds` | scripts/macos-signed-release.ts:1287-1312 | Evidence is returned exactly if every part went through, and then passes its validator |
| `SigningRun.RunNeverDrifts` | scripts/macos-signed-release.ts:1171-1288 | With submission identifiers that are printable and short, as UUIDs are, no run is refused for the wording of its own stages |
| `SignedCandidate.SumsReadBack` | scripts/macos-signed-release.ts:1484-1501 | The written sums parse back to exactly the payload files with their digests |
| `SignedCandidate.CleanedIsSixteen` | scripts/macos-signed-release.ts:1345-1349 | A record ending with the confirmed cleanup is exactly the first sixteen stages |
| `SignedCandidate.FinalEvidenceHolds` | scripts/macos-signed-release.ts:1440-1456 | The two appended stages complete the list and the final evidence passes the full validator |
| `SignedCandidate.FinalIsAccepted` | scripts/macos-signed-release.ts:1503-1590 | Read back, the finalised directory can fail only on the bill of materials or an empty image |
| `SignedCandidate.FinalizeCandidate` | scripts/macos-signed-release.ts:1329-1469 | Succeeds exactly on a ready directory, a condition on what is there before; then it leaves a directory that reads back as a complete candidate |
| `SignedCandidate.NotRepeatable` | scripts/macos-signed-release.ts:1346-1349 | A finalised directory is never ready again |
| `PackageTree.WalkAccepts` | scripts/internal-tun-alpha-package.ts:143-157 | The walk succeeds exactly on trees without links and special files |
| `PackageTree.WalkLists` | scripts/internal-tun-alpha-package.ts:143-157 | It lists exactly the paths that exist |
| `PackageTree.ClosedWorld` | scripts/internal-tun-alpha-package.ts:427-457 | The listed paths are the claimed files and what is above them exactly if those are all files and all directories |
| `PackageManifest.ExpectedPaths` | scripts/internal-tun-alpha-package.ts:438-452 | The loop over files and their parents computes the expected set |
| `PackageManifest.ExpectedIsClosure` | scripts/internal-tun-alpha-package.ts:438-452 | For a well-shaped manifest that set is the claimed files and everything above them |
| `PackageManifest.AcceptedExactly` | scripts/internal-tun-alpha-package.ts:396-457 | A bundle whose files pass is accepted exactly if its files are the manifest paths, main executable, seal and manifest, and its directories those above them |
| `PackageCreation.CreateManifest` | scripts/internal-tun-alpha-package.ts:165-232 | Lists the four fixed files and every application file once; fails exactly on a missing fixed file or a rejected tree |
| `PackageCreation.CreatedIsAccepted` | scripts/internal-tun-alpha-package.ts:740-774 | The manifest created for a conforming bundle without empty directories accepts it once written, if and only if its text is nonempty and within one mebibyte |
| `PackageCreation.ResigningIsAccepted` | scripts/internal-tun-alpha-package.ts:765-774 | Re-signing that touches only the contents of the executable and the seal keeps it accepted |
| `PackageCreation.AcceptedHasNoEmptyDir` | scripts/internal-tun-alpha-package.ts:418-457 | Conversely no accepted bundle has an empty directory |

## Left out

- The UDIF segment identifier: a fixed-offset copy that would only add easy members.
- HTTP requests, pagination and annotated tag chains: the remote is the state machine of `ReleaseRuns`.
- The SemVer grammar of release versions: a version is canonical or not; the signed part assumes of an accepted version only that it is made of letters, digits, `.`, `+` and `-`.
- Local release assets and their metadata file (`readLocalReleaseAssets`): a request carries its assets with size and digest.
- The JSON shape checks of raw transcripts, fixtures and evidence: values are typed.
- UTF-16 lengths: characters count as one in the length limits of the sanitiser, so texts with characters outside the basic plane are measured differently.
- TranscriptRenaming.FixtureIgnoresNames: relates the contents two transcripts are parsed to, not a rewriting of the raw text.
- Frontmatter.ParseFrontmatter: nested objects are cells of a store addressed by number rather than heap objects; the order of keys in an object is not modelled, and numbers keep their digits.
- Parsing of the process table, the proxy state and the command line of the cleanup script: tables are lists of managed processes, other observations are yes or no.
- SigningRun.Sign: a command and the path checks around it succeed or fail as one step.
- SigningRun.Execute: the checks of boundary, credentials and output directory are one step each; timeouts and output limits of commands are not modelled.
- The trusted release policy, attestation verification and path containment: yes-or-no inputs of `FinalizeCandidate`, whose directory no one else changes.
- PackageManifest.AcceptedExactly: leaves out native code-signature checks, Mach-O inspection and the placeholders of the launch-daemon template; paths are lists of components.
- PackageCreation.CreateManifest: the order of entries is not fixed to a locale's.
- Import extraction and resolution for the web graph: an abstract resolver.
- The text-presence gates, documentation heuristics, code generators, brand assets and the Rust, Kotlin and Go programs.
