# ezpug: the HUD pack, the widget link and the test world, modelled and proved

This project models the parts of ezpug with the most state, and proves what they are for:

- **the HUD pack pipeline** (`hud/src`): the pack format with its writer and its cursor parser, the build stamp that is
  written into the sources it is a hash of, the honesty check over `hud/dist/`, and the build that must leave nothing to
  report;
- **the virtual timeline** (`FakeClock.cs`), whose callbacks may arm and cancel timers while they fire, and the timed peek
  of `powerup-dm` that runs on one shared repeating timer;
- **the widget link** (`link.ts`), a reconnecting socket client with pending taps and a backoff, and the **host
  handshake** (`host.ts`) that pins its counterpart;
- **the scripted game world** (`FakeGameWorld.cs`): its two-level HUD overlay and its slot-ordered players.

Each part has a specification on values, laws proved about it over every input or every run, and a class or methods that
change state in place the way the source does, held to that specification.

| modules | part |
|---|---|
| Wrappers, Numbers, Lists, Octets, Utf8, Texts, Sorting, Ordered, Digests | bytes, strings, sorting and ordered maps as the runtime has them |
| VpkPath, VpkFormat, VpkNul, VpkRoundTrip, VpkLayout, VpkCount, VpkLost, VpkBytes, Vpk | the pack: paths, bytes, laws, and the loops that write and read it |
| StampLabel, StampRewrite, StampPattern, StampSkeleton, Stamp, StampSees | the label pattern as a backtracking matcher and as a language, rewriting, the fixed point |
| Addon, AddonMap, Dist, DistSound, DistComplaints, Build, BuildHonest, BuildStage, BuildLeaves, BuildExample, Hud | sources, the check, the build, and `hud/` on disk |
| Clock, ClockComposes, ClockSafety, ClockRepeats, ClockAsks, FakeClock | the timeline, its laws, and the class |
| Peek, PeekLaws, PeekFrames, PowerupDm | the timed peek on that timeline |
| Link, LinkOwnership, LinkStates, LinkTaps, LinkAnswers, LinkTimes, LinkFrames, WidgetLink | the link, its laws, and the class |
| Overlay, Roster, FakeGameWorld | the HUD overlay, the players, and the world |
| Host, HostShell | the handshake |

`dafny verify dfyconfig.toml` checks everything.

## What is assumed, and what is a parameter

- `md5`, `crc32` and `sha256` are any functions of the right shape, and so is `toLowerCase`. Only a few laws need more:
  DistSound.HonestyIsSound and, in StampSees, StampSeesTheMasked, StampSeesEveryOtherByte, HashedTextIsFixedIffStable and
  StampsDifferIffSourcesDo assume that the contents being compared do not collide.
- Strings are sequences of Unicode scalar values; there are no lone surrogates. UTF-8 is written and read for real, with
  the replacement of malformed input, and strings are ordered by their UTF-16 code units.
- The compiler is a function from the staged folder to an output folder or a failure, and the text of a texture
  descriptor (`vtexFor`) one of the picture's path. `manifest.json` is a value: writing it as JSON and parsing it back is
  the identity. The file system is a list of paths with bytes; file names hold no backslash.
- A callback of the clock is a function of its owner's state, the name it was armed under and what the clock shows
  (`NowMs`, `Pending`, the next handle); it answers with a new state and what it asked of the clock, in order.
- The link's environment decides when sockets open, speak and close, whether a dial works out and when timers fire. It
  keeps to this: a socket says nothing before it is dialled or after its close event, and a timer fires only when armed,
  not cancelled and due. A change of the inputs and the watch that notices it are two events, because Vue runs the watch
  later.
- A claim of a power-up by somebody the world does not know is refused like a dead player's.
- The world's casting and the identity of a plain bot are parameters.

## Where the code and its documentation differ

The model follows the code in each case, and a lemma says exactly how far the promise holds.

- **Round trip.** `writeVpk` accepts paths `readVpk` does not give back: a final dot, a final dot and blank, and a
  blank directory lose characters, a NUL ends its string early, and a name that begins with its only dot is an empty name,
  which ends its directory early. VpkLost.RoundTripIff says that these are all the lists that do not come back, whatever
  the checksums. VpkLost.FinalDotIsLost, BlankDirectoryIsLost, LeadingDotIsLost and NulIsLost name a path of each kind.
- **Fixed point.** The stamp is one exactly for texts in which no second `text` attribute stands behind a label's value
  before the next `>` (StampRewrite.MaskIsFixedPointIffStable). A value without a `>` always qualifies;
  StampRewrite.SomeStampIsSeen names a text that does not. StampSees.StampIsUnseenIffStable is the same for a whole tree.
- **"Any other byte of any source changes" the stamp**, says the comment on it. That holds for trees whose labels are
  stable, as far as decoding tells bytes apart (StampSees.StampSeesEveryOtherByte for what is hashed,
  StampsDifferIffSourcesDo for the stamp): a layout is hashed as text, so bytes that are malformed, or read as a
  replacement character, can be changed unseen (Utf8.NothingLostIff, StampSees.MalformedIsUnseen), and so can what an
  unstable layout says outside its labels (StampSees.UnstableIsUnseen).
- **`hello`** is documented as `null` until the next welcome after a reconnect; it stays set
  when an open link is closed or reopened with nothing to dial, until something is dialled again.
  LinkOwnership.HelloIsStaleIff is that condition over every run, HelloGoesStaleIff and HelloStaysStaleIff its two steps,
  HelloCanBeStale a run that meets it, and HelloIsStaleOnlyAtRest the states it can be found in.
- **`closeCode`** is documented as `null` while open; it is that of the last close since the inputs changed, in every
  state (LinkOwnership.CloseCodeIsLastClose), and LinkOwnership.OpenWithACloseCode is a run that leaves one while open.
- **Flushed taps** are named by the text between the first two colons of their id, which is the command only if the command
  has none (LinkTaps.FlushNamesTheCommand).
- **A plain bot** that is recast "was never announced", says the comment; `ArriveBot` announces it
  (Roster.PlainBotsLeaveSilently).
- **Ten frames in five seconds**, says the comment on the peek's interval; it is eleven unless the claim falls on a beat
  that has gone by (PeekLaws.APeekIsTenOrElevenFrames).

## Model

| member | source | states |
|---|---|---|
| VpkRoundTrip.ReadsWritten | hud/src/vpk.ts:59-171 | for every accepted list of NUL-free paths with a name, reading the written pack gives each file once, in sorted order stably grouped by extension and then directory, with its bytes and CRC, under the path put together again |
| VpkLost.RoundTripIff | hud/src/vpk.ts:38-171 | for every accepted list, the files come back as they were if and only if each path has a name and no NUL, does not end in a dot or in a dot and a blank, and does not sit in a directory that is one blank |
| VpkLost.NamelessIsLost | hud/src/vpk.ts:38-171 | the pack of an accepted NUL-free list with a file whose name is empty is refused or read with fewer files than it was written from, whatever is packed beside it and whatever the checksums |
| VpkLost.DirsShort | hud/src/vpk.ts:85-168 | when a file of an extension has no name, the entries read from that extension, together with all that can still be read behind it, are fewer than the files written there |
| VpkCount.NamesUse | hud/src/vpk.ts:150-167 | every entry the reader takes uses up a block in which the two 0xff that end an entry can stand, and no block ends two |
| VpkCount.ExtsBlocks | hud/src/vpk.ts:79-101 | in a written tree a 0xff stands only in the eighteen bytes of an entry, one block a file |
| VpkLost.FinalDotIsLost | hud/src/vpk.ts:38-171 | `a.` is accepted and does not come back |
| VpkLost.BlankDirectoryIsLost | hud/src/vpk.ts:38-171 | ` /x` is accepted and does not come back |
| VpkLost.LeadingDotIsLost | hud/src/vpk.ts:38-171 | `d/.x` is accepted and does not come back |
| VpkLost.NulIsLost | hud/src/vpk.ts:38-171 | `a` with a NUL behind it is accepted and does not come back |
| VpkRoundTrip.RewritesRead | hud/src/vpk.ts:59-171 | for every accepted list of readable whole paths, writing what was read from the written pack reproduces that pack byte for byte |
| VpkRoundTrip.WritesCanonically | hud/src/vpk.ts:12-78 | any permutation of the same files gives the same bytes, or the same refusal |
| VpkRoundTrip.AcceptsIff | hud/src/vpk.ts:48-113 | the writer accepts exactly clean lower-case paths, all different, with data and tree that fit a 32-bit word |
| VpkRoundTrip.PackChecks | hud/src/vpk.ts:104-137 | the reader finds the section boundaries the writer left, and all three digests agree |
| VpkRoundTrip.ExtsRead | hud/src/vpk.ts:79-169 | the three nested loops of the reader undo the three nested levels of the tree, whatever follows it |
| VpkRoundTrip.DataIsCovered | hud/src/vpk.ts:65-102 | each file's data is the slice its running offset and length name, slices stand in sorted order and fill the data section |
| VpkLayout.PackLength | hud/src/vpk.ts:79-113 | the tree's length in closed form over names, directories and extensions, and the pack's as header, tree, data and checksums |
| VpkLayout.FileCostIgnoresOrder | hud/src/vpk.ts:85-95 | the names cost the same bytes in whatever order they are written |
| VpkLayout.SlicesAreDisjoint | hud/src/vpk.ts:65-70 | entry slices never overlap, and the earlier path has the earlier slice |
| VpkLayout.AcceptedIsChecked | hud/src/vpk.ts:117-171 | whatever the buffer, once the reader accepts it the sections partition it, the three digests match and every entry's data has its recorded CRC |
| VpkRoundTrip.NulIsNotReadBack | hud/src/vpk.ts:38-171 | a path with a NUL anywhere is never given back, whatever else is packed with it and whatever the checksums, so a pack with one never reads back as its files |
| VpkNul.ReadPathsAreNulFree | hud/src/vpk.ts:117-171 | whatever the buffer, no path the reader gives holds a NUL |
| VpkLost.LoneFileComesBackIff | hud/src/vpk.ts:38-171 | a file packed alone comes back with its path, bytes and CRC if and only if the path has no NUL and a name and is whole |
| VpkPath.RejoinsIffWhole | hud/src/vpk.ts:38-46 | cutting a path into directory, name and extension and joining it as the reader does gives it back exactly when it is whole |
| VpkPath.PartsAreStrings | hud/src/vpk.ts:38-56 | a clean path without a NUL is cut into a directory and an extension that do not read as terminators, and a name that does only when it is empty |
| VpkPath.FaultIs | hud/src/vpk.ts:48-56 | a path is refused as not lower case when lower-casing changes it, else as not clean exactly when it has a backslash or a segment between slashes that is empty or `..` |
| VpkBytes.LonePack | hud/src/vpk.ts:38-113 | the pack of one file `dir/name.ext` byte for byte: header, strings, the eighteen bytes of its entry, data and digests |
| VpkBytes.RefusesTheLeast | hud/src/vpk.ts:48-64 | in whatever order the files come, a list with paths that are not clean or come twice is refused for the least of them, as not lower case, not clean or there twice |
| VpkBytes.RefusesNothingElse | hud/src/vpk.ts:48-113 | a list without such a path is refused exactly when its data or its tree does not fit a 32-bit word |
| VpkBytes.HeadDamageIsNamed | hud/src/vpk.ts:117-131 | a written pack that is cut below its header or has another signature, another version, or bytes lost or added behind a whole header is refused for just that |
| VpkBytes.BodyDamageIsNamed | hud/src/vpk.ts:117-137 | damage behind the header is refused for the tree, the empty archive section or the file, whichever comes first of which the digest or what is written down as the digest changed without the other |
| VpkBytes.EntryIsJudged | hud/src/vpk.ts:150-167 | any entry, whoever wrote it: refused for its terminator, its archive or its CRC, in that order, or taken with its preload and its slice, and reading goes on behind the preload |
| VpkBytes.StopsShort | hud/src/vpk.ts:139-157 | a tree that ends inside an entry or inside a string is refused as such |
| Texts.LessIsByUnits | hud/src/vpk.ts:60 | strings are ordered by their UTF-16 code units |
| Utf8.KnownBytes | hud/src/vpk.ts:80-143 | the examples of RFC 3629, and a truncated sequence read as one replacement character |
| Vpk.WriteVpk | hud/src/vpk.ts:59-114 | the writer with its maps, its running offset and its pushed parts answers what the format says, errors included |
| Vpk.CheckPaths | hud/src/vpk.ts:61-64 | the first complaint in sorted order, about the path or about its being there twice |
| Vpk.PlaceData | hud/src/vpk.ts:65-70 | the map of offsets and the total, as running sums over the sorted files |
| Vpk.GroupFiles | hud/src/vpk.ts:71-78 | filling the two nested maps file by file arrives at the stable grouping by first occurrence |
| Vpk.PushExts | hud/src/vpk.ts:79-101 | the outer loop pushes the bytes of the whole tree unless an offset or a length does not fit its word |
| Vpk.PushDirs | hud/src/vpk.ts:83-98 | the middle loop pushes one extension's directories behind what is there |
| Vpk.PushNames | hud/src/vpk.ts:85-96 | the inner loop pushes one directory's names and 18-byte entries |
| Vpk.FitsWhenTotalDoes | hud/src/vpk.ts:67-92 | if the data section fits a word, so does every offset and length written into an entry |
| Vpk.ReadVpk | hud/src/vpk.ts:117-171 | the reader with its moving cursor terminates on every buffer and answers what the format says, errors included |
| Vpk.TakeCString | hud/src/vpk.ts:139-146 | the string at the cursor and the cursor behind its NUL, or none when it is unterminated |
| Vpk.ReadEntryAt | hud/src/vpk.ts:151-166 | one entry read field by field at the cursor: its checks, its preload, its slice and its CRC |
| Vpk.ReadNamesAt | hud/src/vpk.ts:150-167 | the innermost loop reads the names of one directory and strictly advances |
| Vpk.ReadDirsAt | hud/src/vpk.ts:149-168 | the middle loop reads the directories of one extension and strictly advances |
| Vpk.ReadExtsAt | hud/src/vpk.ts:148-169 | the outer loop reads the tree and strictly advances |
| Utf8.DecodesEncoded | hud/src/vpk.ts:80-143 | every string written as UTF-8 is read back from its own bytes |
| Utf8.ZeroIsNul | hud/src/vpk.ts:80-146 | only a NUL character is written with a zero byte, so no other string ends early |
| Ordered.GroupByTwoAppend | hud/src/vpk.ts:71-78 | one more file put into the nested maps is one more file at the end of its group |
| Sorting.SortIsCanonical | hud/src/vpk.ts:60 | sorting under a key that tells the elements apart forgets the order they came in |
| StampLabel.MatchSpan | hud/src/stamp.ts:24 | what a match of the label pattern is: a label, and the last place before its tag ends where the text attribute opens |
| StampLabel.FirstIsLeftmost | hud/src/stamp.ts:24-26 | the search finds the leftmost match |
| StampPattern.MatchIsAParse | hud/src/stamp.ts:24 | what is matched is text the pattern stands for: the literal opening, a class name of small letters and dashes, attributes without `>` before a word that begins with `text`, and a value between quotes |
| StampPattern.ParseIsMatched | hud/src/stamp.ts:24 | whatever text the pattern stands for at a place is matched there, and of several ways to read it the one whose value begins last is taken |
| StampPattern.LoneLabel | hud/src/stamp.ts:24-69 | a label alone: its value is read, and written over without touching anything else |
| StampRewrite.MaskIsFixedPointIffStable | hud/src/stamp.ts:37-48 | writing any stamp and masking again is masking, if and only if behind no label's value another text attribute stands before the next `>` |
| StampRewrite.PlainValuesAreStable | hud/src/stamp.ts:24-48 | a text whose label values hold no `>` meets that condition |
| StampRewrite.LastWriteWins | hud/src/stamp.ts:60-69 | in a stable text a second write leaves no trace of the first |
| StampRewrite.WritesShow | hud/src/stamp.ts:60-69 | in an unstable text a write shows through one that begins differently, however often it was made |
| StampRewrite.SomeStampIsSeen | hud/src/stamp.ts:24-48 | there are unstable texts: of `text=">" text="0000000">` behind a label, some stamp is seen after masking |
| StampRewrite.FirstWriteShows | hud/src/stamp.ts:60-69 | in an unstable text a first write shows through a second one that begins differently |
| StampRewrite.ValuesAfterWrite | hud/src/stamp.ts:51-69 | after a write every label of a stable text says what was written, and there are as many labels as before |
| Stamp.StampIsFixedPoint | hud/src/stamp.ts:37-84 | stamping does not change the stamp, stamping again changes no byte, and then the labels have nothing wrong with them if there is one |
| Stamp.WriteStampsEffect | hud/src/stamp.ts:60-69 | writing the layouts in turn rewrites exactly the labelled ones and changes no other file and no name |
| StampSees.StampIsUnseenIffStable | hud/src/stamp.ts:37-69 | in what the stamp is a hash of, no clean stamp written into the labelled layouts is seen if and only if all of them are stable |
| StampSees.HashedTextIsFixedIffStable | hud/src/stamp.ts:37-69 | and so with the very text that is hashed, hash collisions and newlines in names aside |
| StampSees.StampSeesTheMasked | hud/src/stamp.ts:37-48 | two trees are hashed as the same text exactly when they have the same sources with the same contents under the mask (hash collisions and newlines in names aside) |
| StampSees.StampSeesEveryOtherByte | hud/src/stamp.ts:11-48 | two trees with stable labels are hashed as the same text exactly when they have the same sources, layouts with the same decoded text outside their labels' values and anything else with the same bytes (hash collisions and newlines in names aside); trees that are the same in this sense have the same stamp, stable or not |
| StampSees.SameBytesIff | hud/src/stamp.ts:37-48 | two layouts whose decoding loses nothing are the same bytes exactly when they have the same text outside their labels' values and the same values |
| StampSees.MasksTheLabel | hud/src/stamp.ts:20-45 | a layout that is a lone label is hashed with `0000000` for its value; what is no layout is hashed as it is |
| StampSees.StampOfTwoLines | hud/src/stamp.ts:37-48 | the text that is hashed: a line for each source, its name, a blank and its digest |
| StampSees.StampIsSevenDigits | hud/src/stamp.ts:37-48 | a stamp is the first seven characters of a digest, and each is a hexadecimal digit |
| StampSees.StampsDifferIffSourcesDo | hud/src/stamp.ts:11-48 | two trees with stable labels have the same stamp exactly when they have the same sources but for what their labels say, hash collisions and newlines in names aside |
| StampSees.OnlySevenCount | hud/src/stamp.ts:37-48 | under two ways to hash that text the stamps agree exactly when the first seven characters do |
| StampSees.MalformedIsUnseen | hud/src/stamp.ts:13-48 | in any tree a layout of the byte 0xFE can be exchanged for one of 0xFF and the stamp stays |
| StampSees.UnstableIsUnseen | hud/src/stamp.ts:13-48 | in any tree a layout with `text=">" text="0000000">` behind its label can be exchanged for one with `text="0000000" text="">`, which differs outside the label's value, and the stamp stays |
| StampSkeleton.MaskSeesTheSkeleton | hud/src/stamp.ts:24-48 | stable texts are masked alike exactly when they are the same outside their labels' values |
| StampSkeleton.SkeletonAndValues | hud/src/stamp.ts:24-48 | a text is what stands outside its labels' values with those values put back |
| Utf8.NothingLostIff | hud/src/stamp.ts:42-43 | bytes are determined by the text they decode to exactly when that text has no replacement character |
| Addon.ListSources | hud/src/addon.ts:51-74 | the loops over the five folders list the mapped sources, or the first name that is not lower case |
| Addon.AddPlain | hud/src/addon.ts:53-56 | layouts and stylesheets pushed in the order of their sorted names |
| Addon.AddPictures | hud/src/addon.ts:57-69 | pictures pushed with the texture descriptor beside each |
| Addon.FindUpper | hud/src/addon.ts:70-72 | the first source whose addon path is not lower case |
| AddonMap.SourcesAreMapped | hud/src/addon.ts:51-74 | the sources are exactly the addon's description, every `layout/*.xml`, every `styles/*.css` and every `.png` of the three folders, each mapped to its addon path and a picture to its descriptor |
| AddonMap.SourcesIgnoreTheListing | hud/src/addon.ts:51-74 | in whatever order directories list their files, the sources come in the same one |
| AddonMap.LayoutCompilesTo | hud/src/addon.ts:77-82 | `x.xml` compiles to `x.vxml_c` |
| AddonMap.StyleCompilesTo | hud/src/addon.ts:77-82 | `x.css` compiles to `x.vcss_c` |
| AddonMap.ImageCompilesTo | hud/src/addon.ts:77-82 | a picture compiles to `x.vtex_c` |
| AddonMap.UpperCaseStops | hud/src/addon.ts:70-72 | an addon path that is not lower case stops everything, and of several the first in the listing is named |
| AddonMap.OnlyTheInfoCanBeMissing | hud/src/stamp.ts:37-48 | otherwise the stamp can be taken exactly when `addoninfo.txt` is there, the one file that can be missing |
| Dist.NoProblemsIffHonest | hud/src/dist.ts:55-123 | the check finds nothing exactly when stamps, source hashes, lists, loose files and pack all agree |
| Dist.SourcesUnchanged | hud/src/dist.ts:68-75 | no source is reported changed or new exactly when every present source has its recorded hash |
| Dist.NoneGone | hud/src/dist.ts:76-78 | no source is reported gone exactly when every recorded source is present |
| Dist.SameListIsSameFiles | hud/src/dist.ts:80-113 | comparing sorted lists joined by newlines is comparing them as multisets, for names without newlines |
| Dist.NoStrays | hud/src/dist.ts:90-92 | no loose file is reported exactly when every one on disk is in the manifest |
| Dist.LooseFilesHold | hud/src/dist.ts:93-98 | no recorded file is reported exactly when each is on disk with its hash |
| Dist.PackedFilesHold | hud/src/dist.ts:114-118 | no entry is reported exactly when each recorded one has its hash |
| DistComplaints.ReportIsDeserved | hud/src/dist.ts:55-123 | each complaint is in the report exactly when there is its own reason for it, about the source, file or entry it names |
| DistComplaints.LabelsAreReported | hud/src/stamp.ts:71-84 | the stamp problems are each label of each layout that says something else than the stamp, with what it says, and that there is no label exactly when there is none |
| DistSound.HonestyIsSound | hud/src/dist.ts:55-123 | an empty report means no two sources compile to one path, and compiled paths, manifest, loose files and pack entries are the same paths, each once, with the same bytes |
| DistSound.CompiledIsInPanorama | hud/src/addon.ts:51-82 | whatever files there are, everything their sources compile to lands under `panorama/` |
| DistSound.FoldersCollide | hud/src/addon.ts:57-82 | the same picture in two folders has one compiled path, which is what the check must catch |
| BuildHonest.BuildIsHonest | hud/src/cli.ts:157-201 | a build whose compiler wrote one file per compiled path leaves a tree and a manifest the check has nothing to say about |
| BuildExample.ABuildGoesThrough | hud/src/cli.ts:157-201 | what the build law asks for can be met: a project of one labelled layout builds with nothing to report, whatever the hashes |
| BuildLeaves.BuildLeaves | hud/src/cli.ts:157-201 | whatever the compiler's output, once it can be packed: the build leaves the stamped sources, that output under `dist/panorama/` and nothing else there, the pack of it, and a manifest with the hash and size of each compiled file, the hash of each source, the pack, the compiler and the stamp; it ends well exactly when the check of that finds nothing |
| BuildLeaves.BuildStops | hud/src/cli.ts:157-201 | a build that stops says why, keeps the old manifest, and has touched nothing before the stamp is known, only the layouts before the compiler has answered, and only the loose files before there is a pack |
| BuildStage.StagedIsStage | hud/src/cli.ts:133-141 | for sources with paths of their own the staged folder is each source's bytes under its addon path, the descriptor beside each picture, and nothing else |
| BuildStage.StagedIsTheLast | hud/src/cli.ts:133-141 | in general the last source that goes to a path decides what is there |
| BuildStage.CompilerIsGiven | hud/src/cli.ts:157-173 | the folder handed to the compiler is that stage of the stamped sources: every label in it says the stamp that the manifest records |
| BuildHonest.SameBeside | hud/src/cli.ts:157-196 | what the build does under `dist/` changes no source, no stamp and no source hash |
| BuildHonest.LooseHalf | hud/src/cli.ts:175-196 | after the copy every recorded file is loose with its hash and nothing else is there |
| BuildHonest.PackHalf | hud/src/cli.ts:178-188 | the pack of the copied files reads back as exactly the recorded files |
| Hud.Disk.Build | hud/src/cli.ts:157-201 | the build step by step, with what each stop leaves behind |
| Hud.Disk.Compile | hud/src/cli.ts:160-173 | staging the sources and handing them to the compiler |
| Hud.Disk.Package | hud/src/cli.ts:175-201 | removing the old output, copying, packing, recording and checking |
| Hud.Disk.CopyOut | hud/src/cli.ts:177-186 | the loop that copies each compiled file, records it and puts it on the list to pack |
| Hud.Disk.StampLayouts | hud/src/stamp.ts:60-69 | the loop that writes the stamp, touching only the layouts it changes |
| Hud.Disk.VerifyDist | hud/src/dist.ts:55-123 | the check as it accumulates its problems, in their order |
| Hud.Disk.CheckLoose | hud/src/dist.ts:60-102 | everything up to the pack |
| Hud.CheckSources | hud/src/dist.ts:60-88 | stamps, source hashes and the list of compiled paths against the manifest |
| Hud.CheckPack | hud/src/dist.ts:107-121 | the pack read back and compared, or the reader's complaint |
| ClockComposes.TwoAreOne | plugins/EZPug.Sdk.Testing/FakeClock.cs:80-125 | two advances that end fire what one advance to the later instant fires, and leave exactly what it leaves, whatever the callbacks arm and cancel |
| ClockComposes.OneIsTwo | plugins/EZPug.Sdk.Testing/FakeClock.cs:80-125 | an advance that ends can be cut in two at any earlier instant: both halves end and together do the same |
| ClockSafety.AdvanceIsSafe | plugins/EZPug.Sdk.Testing/FakeClock.cs:80-125 | callbacks run in due order, ties by order number, each at its due time with the clock showing it; afterwards nothing live is due and time has not gone back |
| ClockSafety.EveryStateIsSane | plugins/EZPug.Sdk.Testing/FakeClock.cs:63-125 | in every state a new clock can reach handles and order numbers are used once, no live timer is due before now, and now never decreases |
| ClockSafety.CancelMeansCancel | plugins/EZPug.Sdk.Testing/FakeClock.cs:33-123 | a timer one callback cancels is not fired by a later one, not even at the same instant |
| ClockSafety.GoneStaysGone | plugins/EZPug.Sdk.Testing/FakeClock.cs:33-124 | a handle that is cancelled or spent never fires again |
| ClockSafety.SaneFired | plugins/EZPug.Sdk.Testing/FakeClock.cs:87-110 | picking the earliest timer moves the clock to its due time exactly |
| ClockRepeats.FiresOnItsGrid | plugins/EZPug.Sdk.Testing/FakeClock.cs:99-108 | every live timer fires at the due times it was armed for and no others: all up to the target if nobody cancels it, the first few if somebody does |
| ClockRepeats.ExpectedIsGrid | plugins/EZPug.Sdk.Testing/FakeClock.cs:65-103 | a repeat of interval i armed at a comes up floor((t - a) / i) times by t, at a + i, a + 2i and so on |
| ClockAsks.AsksComeWhenAsked | plugins/EZPug.Sdk.Testing/FakeClock.cs:63-108 | from any state, `After(d)` let alone fires once, at now + max(d, 0), and not at an earlier instant, and `Every(p)` at now + k * max(p, 1) for k >= 1 and at nothing else |
| ClockAsks.CallbackAsksCome | plugins/EZPug.Sdk.Testing/FakeClock.cs:63-123 | so do the timers that callbacks ask for while they fire |
| ClockAsks.CallbacksSeeTheClock | plugins/EZPug.Sdk.Testing/FakeClock.cs:80-125 | what callbacks see while a book of one-shots runs out: their names in the order they fire, each with its due time for now, one pending timer fewer each time, and the handles given out so far |
| ClockRepeats.QuietEnds | plugins/EZPug.Sdk.Testing/FakeClock.cs:80-125 | with callbacks that arm nothing an advance ends within the callbacks that were owed |
| ClockRepeats.AgainNeverEnds | plugins/EZPug.Sdk.Testing/FakeClock.cs:80-125 | a callback that arms itself with no delay is never done, so some such condition is needed |
| FakeClock.Entry.Cancel | plugins/EZPug.Sdk.Testing/FakeClock.cs:33 | cancelling marks the timer and nothing else |
| FakeClock.FakeClock.constructor | plugins/EZPug.Sdk.Testing/FakeClock.cs:36-39 | a new clock shows where it starts and holds nothing |
| FakeClock.FakeClock.Pending | plugins/EZPug.Sdk.Testing/FakeClock.cs:52-61 | how many timers on the book are not cancelled |
| FakeClock.FakeClock.After | plugins/EZPug.Sdk.Testing/FakeClock.cs:63 | a one-shot, due no earlier than now, and its handle |
| FakeClock.FakeClock.Every | plugins/EZPug.Sdk.Testing/FakeClock.cs:65 | a repeat of at least a millisecond, first due an interval from now |
| FakeClock.FakeClock.Arm | plugins/EZPug.Sdk.Testing/FakeClock.cs:67-75 | a fresh entry at the end of the book, with the next order number |
| FakeClock.FakeClock.PickDue | plugins/EZPug.Sdk.Testing/FakeClock.cs:87-91 | the live timer due by the target that comes first |
| FakeClock.FakeClock.Strike | plugins/EZPug.Sdk.Testing/FakeClock.cs:99-108 | the picked timer goes off the book, or a repeat goes to its next due time with a fresh order number |
| FakeClock.FakeClock.Sweep | plugins/EZPug.Sdk.Testing/FakeClock.cs:94 | the cancelled timers leave the book, the others keep their order |
| FakeClock.FakeClock.AdvanceTo | plugins/EZPug.Sdk.Testing/FakeClock.cs:80-125 | the loop over the entries in place does what the timeline says, whenever that ends |
| FakeClock.FakeClock.Advance | plugins/EZPug.Sdk.Testing/FakeClock.cs:78 | the same, relative to now |
| LinkOwnership.EveryStateIsOwned | gamemode-kit/src/link.ts:186-319 | over every run of a new link: no two live sockets, no socket beside an armed retry, and what each state holds |
| LinkOwnership.RetryIsNeverOverwritten | gamemode-kit/src/link.ts:226-312 | an armed retry stays until it fires or is cancelled by a hang-up |
| LinkOwnership.OnlyTheCurrentSpeaks | gamemode-kit/src/link.ts:226-280 | a frame that has any effect came from the socket the link holds |
| LinkOwnership.DecisionsAreFinal | gamemode-kit/src/link.ts:278-300 | after a close code from 4000 to 4999 the state says ended or refused and nothing is dialled until the inputs change |
| LinkOwnership.CloseIsFinal | gamemode-kit/src/link.ts:246-345 | after `close()` nothing is ever dialled again and the state stays closed |
| LinkOwnership.HelloGoesStaleIff | gamemode-kit/src/link.ts:194-345 | an open link is left with a welcome and not open exactly by a close, or by a reopen with no URL, no token or a URL that cannot be used |
| LinkOwnership.HelloStaysStaleIff | gamemode-kit/src/link.ts:194-345 | a welcome is stale after an input to a link that is not open exactly when it was before and the input is no reopen of an unclosed link with something to dial |
| LinkOwnership.HelloIsStaleIff | gamemode-kit/src/link.ts:194-345 | over every run of a new link, a stale welcome is there exactly when the inputs say so: the last of them that left the open state, or dialled since, decides |
| LinkOwnership.HelloIsStaleOnlyAtRest | gamemode-kit/src/link.ts:194-285 | open means a welcome is there; a welcome without being open is found only in watching, refused and closed |
| LinkOwnership.CloseCodeIsLastClose | gamemode-kit/src/link.ts:278-319 | over every run of a new link, the close code is that of the last close of a held socket since the inputs last changed, whether the link is open again or not |
| LinkOwnership.OpenWithACloseCode | gamemode-kit/src/link.ts:194-319 | a network close, the retry and the next welcome leave an open link with code 1006, against what the documentation of `closeCode` says |
| LinkStates.StateIsTheLastWord | gamemode-kit/src/link.ts:195-345 | after every run the state is what the last thing that matters made it: a welcome, a close code, a dial with or without a target, or `close()` |
| LinkStates.RetryIsDueAfterItsDelay | gamemode-kit/src/link.ts:246-312 | a retry is armed exactly by a network close of the held socket and by a dial that fails, unless closed, and is due its delay from then |
| LinkStates.InputsAreTheLastSupplied | gamemode-kit/src/link.ts:246-254 | the URL and the token in use are those supplied last |
| LinkOwnership.HelloCanBeStale | gamemode-kit/src/link.ts:246-319 | a token taken away leaves the last welcome standing, against what the documentation of `hello` says |
| LinkTaps.EveryTapSettlesOnce | gamemode-kit/src/link.ts:139-345 | in every run an id is given out at most once, and one given out is answered once or pending, never both and never twice |
| LinkAnswers.EveryAnswerIsMeant | gamemode-kit/src/link.ts:161-345 | over every run a tap's promise is resolved with the frame of its id itself; by its own timer as `unavailable` under its own command; by close code 4000 as `not_live` and by any other close or `close()` as `unavailable`; on the spot as `not_live` exactly when the link has ended, else as `unavailable`; and by nothing else |
| LinkAnswers.PendingIsTheTapSent | gamemode-kit/src/link.ts:321-338 | what waits under an id is the command that was sent with it |
| LinkAnswers.CommandsAreTheTaps | gamemode-kit/src/link.ts:321-338 | a command frame is sent for a tap on an open link, over the held socket, with that tap's id, command and arguments, and for nothing else |
| LinkAnswers.GreetingsAreOfSocketsThatOpen | gamemode-kit/src/link.ts:271-273 | a greeting is sent when a socket opens and at no other time |
| LinkAnswers.PushesArePassedOn | gamemode-kit/src/link.ts:208-211 | listeners hear exactly the pushes that arrive |
| LinkAnswers.HangUpsAreOfTheHeld | gamemode-kit/src/link.ts:226-244 | only the held socket is hung up, by a reopen or a close |
| LinkAnswers.DialsAreOfTheTarget | gamemode-kit/src/link.ts:246-273 | what is dialled is the target of the URL, when there is a token, no close and the dial works out |
| LinkTaps.IdsAreDistinct | gamemode-kit/src/link.ts:322-323 | no two taps of one link share a correlation id, whatever their commands are called |
| LinkTaps.FlushNamesTheCommand | gamemode-kit/src/link.ts:161-167 | a flush names the command of a tap exactly when the command has no colon |
| LinkTaps.TimedRun | gamemode-kit/src/link.ts:161-338 | over every run a tap is pending exactly while its own timer is armed: whatever answers it cancels the timer, or is the timer |
| LinkTaps.NumberedRun | gamemode-kit/src/link.ts:139-338 | the pending map holds this link's own taps, oldest first, each under its own id |
| LinkTimes.EveryTapIsAnsweredInTime | gamemode-kit/src/link.ts:321-338 | with timers that fire on time, a tap has had its one answer once twenty seconds have passed, through reopens as well |
| LinkTimes.TapStaysDue | gamemode-kit/src/link.ts:321-338 | as long as a tap's timer is armed it is due exactly twenty seconds after the tap |
| LinkTimes.BackoffDoubles | gamemode-kit/src/link.ts:303-312 | each delay is twice the one before it, up to the maximum |
| LinkTimes.BackoffIsExact | gamemode-kit/src/link.ts:303-312 | the n-th retry in a row since a welcome or a change of inputs waits min(max, initial * 2^(n-1)) |
| LinkTimes.BackoffGrows | gamemode-kit/src/link.ts:303-312 | waits never shrink, never exceed the maximum and start at the initial delay |
| LinkFrames.EventsAreToldInOrder | gamemode-kit/src/link.ts:203-207 | every event frame of the held socket is told once, in order, and the last one is kept |
| LinkFrames.ButtonsAreTheWelcomes | gamemode-kit/src/link.ts:169-202 | in every state, whatever is answered and whatever has closed since, the buttons are the verbs of the last welcome in its order, none before the first, and `hello` is that welcome or nothing |
| LinkFrames.AnswersMoveTheirOwnButton | gamemode-kit/src/link.ts:169-184 | an answer moves only its command's button: its charges to those stated, its ready time to the stated cooldown from now unless `rate_limited`, else to its own cooldown from now if applied, else nowhere |
| LinkFrames.WelcomeDrawsItsVerbs | gamemode-kit/src/link.ts:195-202 | a welcome draws its verbs in order, each ready its stated wait from now |
| LinkFrames.GreetsWithTheTokenItDialledWith | gamemode-kit/src/link.ts:246-273 | a socket greets with the token it was dialled with, whatever the inputs have become since |
| WidgetLink.WidgetLink.constructor | gamemode-kit/src/link.ts:122-147 | a new link opens at once |
| WidgetLink.WidgetLink.FlushPending | gamemode-kit/src/link.ts:161-167 | every pending tap is rejected in order and the map is empty |
| WidgetLink.WidgetLink.OnFrame | gamemode-kit/src/link.ts:186-224 | one parsed frame, by type |
| WidgetLink.WidgetLink.OnHello | gamemode-kit/src/link.ts:195-202 | a welcome is kept, draws its buttons, opens the link and resets the backoff |
| WidgetLink.WidgetLink.OnResult | gamemode-kit/src/link.ts:212-220 | an answer settles the buttons, and the tap it names if that is pending |
| WidgetLink.WidgetLink.HangUp | gamemode-kit/src/link.ts:226-244 | the retry is cancelled, the socket silenced and closed |
| WidgetLink.WidgetLink.Dial | gamemode-kit/src/link.ts:246-263 | whether there is anything to dial |
| WidgetLink.WidgetLink.Try | gamemode-kit/src/link.ts:260-273 | one attempt, and a retry when it throws |
| WidgetLink.WidgetLink.OnOpen | gamemode-kit/src/link.ts:271-273 | a socket that opens is sent the greeting |
| WidgetLink.WidgetLink.OnClosed | gamemode-kit/src/link.ts:278-283 | a close event counts only from the held socket |
| WidgetLink.WidgetLink.Decide | gamemode-kit/src/link.ts:284-301 | what each close code decides |
| WidgetLink.WidgetLink.ScheduleRetry | gamemode-kit/src/link.ts:303-312 | the next attempt is armed |
| WidgetLink.WidgetLink.Reopened | gamemode-kit/src/link.ts:314-319 | hang up, start over and open; pending taps stay |
| WidgetLink.WidgetLink.Send | gamemode-kit/src/link.ts:321-338 | a tap gets an id, and is refused on the spot or sent and put on the map |
| WidgetLink.WidgetLink.HangUpForGood | gamemode-kit/src/link.ts:340-345 | `close` |
| WidgetLink.WidgetLink.TapTimedOut | gamemode-kit/src/link.ts:331-334 | a tap's own timer gives up on it |
| WidgetLink.WidgetLink.Take | gamemode-kit/src/link.ts:122-353 | one input of the environment is one step of the model |
| WidgetLink.WidgetLink.TakeAll | gamemode-kit/src/link.ts:122-353 | any sequence of inputs leaves the state and the effects of the model's run |
| PeekLaws.EveryPeekFollowsItsPlan | plugins/EZPug.PowerupDm/PowerupDm.cs:133-209 | whatever happens until its owner claims the peek again, claims of other power-ups included, a peek's frames are the claim's own and then the beats before the deadline, in order: all of them if undisturbed, the first few otherwise, each saying truly what is left |
| PeekLaws.APeekIsTenOrElevenFrames | plugins/EZPug.PowerupDm/PowerupDm.cs:85-209 | an undisturbed peek is ten frames if it was claimed on a beat that had gone by and eleven otherwise |
| PeekLaws.APeekCannotEndAtZero | plugins/EZPug.PowerupDm/PowerupDm.cs:73-169 | an end of 0 means no peek, so a claim exactly five seconds before instant 0 shows its own frame and no other; at every other instant the plan holds |
| PeekLaws.NothingWithoutAClaim | plugins/EZPug.PowerupDm/PowerupDm.cs:104-180 | with no peek running a player is shown nothing until he next claims one |
| PeekLaws.NothingAfterADeath | plugins/EZPug.PowerupDm/PowerupDm.cs:112 | a death ends the peek at once |
| PeekLaws.FramesGoToTheLiving | plugins/EZPug.PowerupDm/PowerupDm.cs:161-209 | in every state, frames go only to players who are there and alive, with 1 to 5000 ms left |
| PeekFrames.FramesShowTheWorld | plugins/EZPug.PowerupDm/PowerupDm.cs:189-209 | each frame shows its owner's place and everybody else alive, in the order of the world, as they are at that moment |
| PeekFrames.PowerupIsTheLastClaim | plugins/EZPug.PowerupDm/PowerupDm.cs:104-149 | the power-up a life holds is the last one claimed in it |
| PeekFrames.PlayersAreTheLastTold | plugins/EZPug.PowerupDm/PowerupDm.cs:161-209 | the players frames are about are those the world has had since it last changed |
| PeekLaws.EveryStateBeats | plugins/EZPug.PowerupDm/PowerupDm.cs:85-93 | from the assignment on the next beat is never more than an interval away |
| PeekLaws.BeatsAreOnTheGrid | plugins/EZPug.PowerupDm/PowerupDm.cs:85-93 | whatever happens, the beats come every half second counted from the assignment |
| PeekLaws.ClockDrivesTheBeats | plugins/EZPug.PowerupDm/PowerupDm.cs:85-93 | advancing the clock of module Clock with the mode's timer on it is letting the mode's time pass |
| PeekLaws.BeatsComeToAnEnd | plugins/EZPug.PowerupDm/PowerupDm.cs:85-93 | and that advance ends |
| PowerupDm.PowerupDm.OnAssigned | plugins/EZPug.PowerupDm/PowerupDm.cs:85-93 | a match begins with no lives and no frames |
| PowerupDm.PowerupDm.OnPlayerSpawned | plugins/EZPug.PowerupDm/PowerupDm.cs:104-110 | a new life holds no power-up and no peek |
| PowerupDm.PowerupDm.OnPlayerDied | plugins/EZPug.PowerupDm/PowerupDm.cs:112 | the peek is over |
| PowerupDm.PowerupDm.OnPlayerCommand | plugins/EZPug.PowerupDm/PowerupDm.cs:119-149 | a claim by a living player, by kind; a dead one is refused and changes nothing |
| PowerupDm.PowerupDm.PushPeeks | plugins/EZPug.PowerupDm/PowerupDm.cs:161-180 | one turn of the timer over all lives |
| PowerupDm.PowerupDm.PushPeek | plugins/EZPug.PowerupDm/PowerupDm.cs:189-209 | one frame: what is left, and where everybody else alive is |
| Overlay.ReadingIsReplaying | plugins/EZPug.Sdk.Testing/FakeGameWorld.cs:56-304 | after any creates, removals and writes, with several entities of one layout, what a slot reads off an entity is the replay of the writes since its creation: its own last, else everybody's last, else the default |
| Overlay.TwinsAgree | plugins/EZPug.Sdk.Testing/FakeGameWorld.cs:236-286 | two entities of one layout read the same for a slot, classes and variables alike, once that was settled after both were created: by a write for the slot, by one for everybody with none for the slot before, or never said |
| Roster.EveryWorldIsOrderly | plugins/EZPug.Sdk.Testing/FakeGameWorld.cs:177-508 | in every world that can be reached the players stand strictly in order of their slots, at most sixty-four, no object twice |
| Roster.ConnectTakesTheLeast | plugins/EZPug.Sdk.Testing/FakeGameWorld.cs:449-463 | a newcomer takes the least free slot, in its place among the others, and is announced; it fails exactly when the server is full |
| Roster.FullIsSixtyFour | plugins/EZPug.Sdk.Testing/FakeGameWorld.cs:456 | no slot is free exactly when there are sixty-four players |
| Roster.RecastKeepsTheSlots | plugins/EZPug.Sdk.Testing/FakeGameWorld.cs:177-204 | a recast bot gives its slot, team and life to a new player with the identity and the name of the role, or stays if it is that very puppet; everybody else stays in place, doing it again changes nothing, and without a bot in that slot it fails and nothing changes |
| Roster.ArriveIsOrderly | plugins/EZPug.Sdk.Testing/FakeGameWorld.cs:496-508 | a bot takes the least free slot in its place among the others with the identity and name that are due to it, is a puppet exactly when the casting has a role for it, and is announced last |
| Roster.PlainBotsLeaveSilently | plugins/EZPug.Sdk.Testing/FakeGameWorld.cs:171-204 | a replaced bot is announced gone exactly when it was a puppet; a plain one was announced on arrival all the same, against what the comment says |
| Roster.DisconnectIsOrderly | plugins/EZPug.Sdk.Testing/FakeGameWorld.cs:465-471 | a disconnect leaves an orderly world without the one who left |
| Roster.DisconnectTakesOne | plugins/EZPug.Sdk.Testing/FakeGameWorld.cs:465-471 | whoever is there is taken out from among the others, who stay in order, and announced; for anybody else nothing changes |
| Roster.KickBotsLeavesPeople | plugins/EZPug.Sdk.Testing/FakeGameWorld.cs:382-390 | kicking the bots leaves the people in their order and announces each bot gone in turn |
| Roster.EveryoneIsAccountedFor | plugins/EZPug.Sdk.Testing/FakeGameWorld.cs:177-508 | over every run an arrival is announced once, a departure at most once, and nobody announced gone is there |
| FakeGameWorld.FakeHudLayout.Has | plugins/EZPug.Sdk.Testing/FakeGameWorld.cs:62-65 | whether a slot sees a class |
| FakeGameWorld.FakeHudLayout.Variable | plugins/EZPug.Sdk.Testing/FakeGameWorld.cs:68-71 | what a slot reads for a variable |
| FakeGameWorld.FakeHudLayout.Take | plugins/EZPug.Sdk.Testing/FakeGameWorld.cs:248-286 | one write to one entity |
| FakeGameWorld.FakeGameWorld.CreateHudLayout | plugins/EZPug.Sdk.Testing/FakeGameWorld.cs:236-240 | a new entity at the end, however many of that layout there are |
| FakeGameWorld.FakeGameWorld.RemoveHudLayouts | plugins/EZPug.Sdk.Testing/FakeGameWorld.cs:242-246 | all entities go |
| FakeGameWorld.FakeGameWorld.SetHud | plugins/EZPug.Sdk.Testing/FakeGameWorld.cs:248-286 | the four setters tell every entity of the layout and no other |
| FakeGameWorld.FakeGameWorld.FreeSlot | plugins/EZPug.Sdk.Testing/FakeGameWorld.cs:456 | the search for the least free slot |
| FakeGameWorld.FakeGameWorld.Seat | plugins/EZPug.Sdk.Testing/FakeGameWorld.cs:458-463 | added, sorted by slot, announced |
| FakeGameWorld.FakeGameWorld.Connect | plugins/EZPug.Sdk.Testing/FakeGameWorld.cs:449-454 | a new player, or the exception of a full server with nothing changed |
| FakeGameWorld.FakeGameWorld.ArriveBot | plugins/EZPug.Sdk.Testing/FakeGameWorld.cs:496-508 | a bot or the puppet the casting makes of it |
| FakeGameWorld.FakeGameWorld.Disconnect | plugins/EZPug.Sdk.Testing/FakeGameWorld.cs:465-471 | removed and announced, if he was there |
| FakeGameWorld.FakeGameWorld.Recast | plugins/EZPug.Sdk.Testing/FakeGameWorld.cs:177-204 | the bot of a slot becomes a rostered player |
| FakeGameWorld.FakeGameWorld.KickBots | plugins/EZPug.Sdk.Testing/FakeGameWorld.cs:382-390 | every bot there is goes, one after the other |
| Host.OnlyTheFirstInitIsHeard | gamemode-kit/src/host.ts:137-193 | for every sequence of messages the widget ends up showing what it would had it heard only the first valid init and then only that init's origin and window |
| Host.TheLastInitIsShown | gamemode-kit/src/host.ts:137-165 | after every run a pinned widget shows URL, match and token of the last valid init it accepted, no token exactly when that field was null, its locale as read, and the tokens of the last accepted message that brought any; before that it shows nothing |
| Host.PinsAnInit | gamemode-kit/src/host.ts:74-150 | whoever first sends an object of the right kind and protocol with a URL, a match and a token or null is pinned, origin and window |
| Host.TokensChangeTokensAlone | gamemode-kit/src/host.ts:88-165 | a tokens message from the pin changes the tokens and nothing else |
| Host.StrangersAreNotHeard | gamemode-kit/src/host.ts:152-154 | a message of another origin, or of another window of the pinned one, changes nothing |
| Host.ReportsArePosted | gamemode-kit/src/host.ts:177-184 | a height is posted held between 0 and 10000, an error by its first 512 characters or as `error`, once there is a pin |
| Host.ReadyIsRepeated | gamemode-kit/src/host.ts:131-171 | `ready` is said at once and is always due again until somebody answers, and so long the orphan timer is armed until it fires |
| Host.OrphansHaveWaited | gamemode-kit/src/host.ts:137-171 | a widget nobody has introduced himself to is an orphan exactly when that timer has fired |
| Host.PostsGoToThePin | gamemode-kit/src/host.ts:122-183 | every post before the pin is `ready` to anybody, every post after it goes to the pinned origin and is not `ready` |
| Host.OrphansAreFoundByInit | gamemode-kit/src/host.ts:137-171 | the orphan state is left by a valid init and by nothing else |
| Host.DisposedIsDeaf | gamemode-kit/src/host.ts:185-191 | a disposed shell posts nothing and hears nothing |
| Host.PostsAreBounded | gamemode-kit/src/host.ts:177-184 | a posted height is between 0 and 10000, a posted error has 1 to 512 characters |
| HostShell.HostShell.constructor | gamemode-kit/src/host.ts:101-171 | the shell says `ready` at once and arms its patience |
| HostShell.HostShell.PostTo | gamemode-kit/src/host.ts:122-129 | to the pinned origin, or to anybody before the pin, unless disposed |
| HostShell.HostShell.SayReady | gamemode-kit/src/host.ts:131-135 | `ready` once and again until somebody answers |
| HostShell.HostShell.OnMessage | gamemode-kit/src/host.ts:137-165 | pin, filter, read |
| HostShell.HostShell.Take | gamemode-kit/src/host.ts:101-193 | one input of the environment is one step of the model |

## Left out

- VpkRoundTrip.RewritesRead: speaks of the lists that come back as they were. Where paths lose characters, rewriting may reproduce the pack all the same (`a.` alone) or be refused (`a.` beside `a`).
- StampSees.StampSeesEveryOtherByte: the equivalence is for pairs of trees that are both stable, because a stable text can be masked like an unstable one (StampSees.UnstableIsUnseen).
- Stamp.StampIsFixedPoint: one direction, for trees whose labelled layouts are all stable. The equivalence is about what is hashed (StampSees.StampIsUnseenIffStable, HashedTextIsFixedIffStable), because whether seven characters of a hash change is up to the hash.
- BuildHonest.BuildIsHonest: takes "one file per compiled path" and readable paths as what the compiler delivers; Docker, Wine, SteamCMD and the read-back of compiled files are foreign processes.
- ClockComposes.TwoAreOne: is about advances that end. Zero-delay loops of callbacks do not (ClockRepeats.AgainNeverEnds), and the loop of FakeClock.FakeClock.AdvanceTo is proved to end only when some number of callbacks suffices.
- Threads in `FakeClock`: the lock and the window between the pick and the callback are not modelled, so the check for a timer cancelled in that window is not there; callbacks do not call `AdvanceTo` themselves.
- 64-bit wrap-around of due times and order numbers: integers are unbounded.
- LinkTimes.BackoffIsExact: `2 ** attempt` is exact here; a double overflows after 1023 failures in a row, which matters only for an initial delay of zero.
- Frames of the link that parse but break the protocol (a `hello` without `commands`), a `send` of the socket that throws, listeners that throw, and `widgetSocketUrl` beyond whether it throws: the target is a parameter.
- `Math.round` of the reported height, and counting UTF-16 units in the 512 characters of a reported error: heights arrive as integers and characters are counted.
- Speed, armour, chat and the plugin event of `powerup-dm`: recorders without a further invariant; coordinates are already whole numbers.
- What a player carries beside who he is, where he sits, his team and whether he lives (position, angles, health, armour, items), and so the part of a recast that hands the position over.
- Object identity of players: a serial number stands for it, so two references to one player are not two names for one field; `AddBot` and `ArriveAskedBots`, a queue in front of `ArriveBot`, are not modelled, nor are cvars, sounds, grenades and the action log.
- Replacement patterns: a stamp that begins with a digit behind `$1` is read as group one followed by the digit, as JavaScript does when there are not that many groups.
- JavaScript object keys such as `__proto__` or integer-like names, whose order or lookup differs from a list of keys.
- Vue reactivity, custom elements, themes, translations, tokens, banners, workshop publishing and the other verbs of the command line: user interface, I/O and small string functions.
