# Console cores, modelled in Dafny

A model of the pure cores of the console's TypeScript front end, with proofs of what they promise:

- **Announcements** (`AnnounceText`, `AnnounceNormalize`, `AnnounceInline`, `AnnounceScan`, `AnnounceRules`,
  `AnnounceBlocks`, `AnnouncePatterns`, `AnnounceTree`, `AnnouncePadding`, `AnnounceReparse`, `Utf16`, `AnnounceUtf16`,
  `AnnounceRefine`, `AnnounceLetters`, `AnnounceAccept`, `AnnounceWritten`, `AnnounceRefused`, `NormalByLines`): the
  announcement grammar. A body is normalised, checked rule by rule, split into blocks and scanned from left to right.
  Which bodies are refused, and for what, is said character by character, and so is when a tree that is written down is
  read back as it was meant; the tree of an accepted body is well formed, printing it gives the body back, scanning what
  was printed gives the tokens back under an exact condition, and the parser over UTF-16 units refines the parser over
  code points, on every string.
- **Terrain** (`TerrainFold`, `ProbePath`, `InfraRows`, `TerrainLayout`, `FoldByIndex`, `PathByEdges`, `SpansByName`,
  `LayoutByIds`): the fold of an update log onto a graph, the backward search of a probing path, the rows of infra
  activities, and a layout that time travel never moves.
- **Replay** (`RunEvents`, `ReplayOrder`, `ReplayTimeline`, `RunByPages`, `TimelineByEvents`): pages of events
  accumulated into a sorted list, atomic cards, a merge of two clock domains, and visual turns.
- **Strings** (`HarnessMatch`, `Ansi`, `LabelWrap`, `ShellQuote`, `Fingerprint`, `KindByCount`, `AnsiByChars`,
  `LabelByChars`, `QuoteByChars`, `KeyByDigits`): the closest match of a typed kind, terminal colours against plain
  stripping, greedy wrapping, shell quoting, and the fingerprint of finished runs.
- **Toasts** (`Toasts`, `ToastsByClock`): a store whose toasts live and die by timers.

`Prelude`, `Sorting` and `Decimal` hold the shared vocabulary. Code that loops or updates state is a method, proved
against a specification function or predicate; what the source promises is then proved of the specification, for all
inputs, runs or reachable states. The modules with `By` in their names, and `AnnounceLetters` to `AnnounceRefused`, say
each specification once more in the data alone: positions, characters, ids, numbers and the names of constructors.
`dafny verify dfyconfig.toml` checks everything.

## How the source is read

- A string is a sequence of numbers (`Text`), UTF-16 units as JavaScript has them. The announcement modules read it as
  code points as well; `Utf16.Encode` goes from one to the other. Ids and labels that are only compared are Dafny
  strings.
- `Date.parse` is not modelled: a time is absent, unreadable or a number of milliseconds (`ReplayOrder.Stamp`).
  `localeCompare` is a parameter, of which no more is assumed than that it orders all strings, possibly with ties
  (`ReplayOrder.Collates`). `Array.prototype.sort` is the one stable sort.
- The Unicode class Nd, the terminal test of a run, the clock and the pages are parameters.
- Layout coordinates and ratios are reals: no property here turns on rounding.
- In `Toasts` the pending timeouts and the clock belong to the model. Timers are on time: the clock does not pass a
  pending one.
- The 32-bit arithmetic of the fingerprint is exact: exclusive or bit by bit, multiplication modulo 2^32. The ids
  that are hashed are taken to hold no comma (`Fingerprint.SortedStreamTells`): the server mints them as hexadecimal
  numbers (src/xorcise/core/runs/repository.py:95), and only the type of an id admits one.
- In `InfraRows` a time is any string, and `WireTimes` says how the server spells it: it stamps a date and time
  (src/xorcise/core/contracts/terrain.py:98, src/xorcise/core/runs/terrain_timeline.py:35), which opens with the
  digits of the year.
- The shell of `ShellQuote` is that of the 2017 edition of POSIX: its section 2.2 says which characters are special,
  independently of what the program takes for safe. Two that it lists, `=` and `%`, are read literally: they matter to
  assignments (`ShellQuote.AssignmentShows`) and job ids, not to the reading of words. The 2024 edition adds `]`, `^`,
  `-`, `!`, `{`, `,` and `}`, which matter inside patterns and braces or as whole words, and are read literally too.

Where code and comment differ, the model follows the code, and the exact condition is a lemma:

- `foldTerrain` at `k = -1` is described as the base, but it still activates arrival edges: `TerrainFold.FoldOfNothing`.
- `use-run-events` says events are deduped by id, but a page is filtered against the ids before it, so a repeat inside
  one page passes: `RunEvents.StepExact`, and over whole runs `RunEvents.RunExact`.
- `agentCards` keeps only the last output of a base: `ReplayTimeline.CardsConserve`.
- The card sort puts unreadable times first and the accumulator puts them last: `ReplayTimeline.TimelineKeepsOrder`.
- A link label is stripped, so a padded one does not print back (`AnnounceScan.PrintScan`) and what is printed
  can scan to something else (`AnnounceReparse.ReparseExact`).
- `stripAnsi` is said to drop the control sequences, but it can leave one behind, put together from the text on both
  sides of another; `Ansi.StripTwice` reads off the text when it does.

## Model

| member | source | states |
|---|---|---|
| `AnnounceText.PyRstrip` | frontend/src/features/announcements/markdown.tsx:154-158 | the strip loop leaves the text without its trailing Python white space |
| `AnnounceText.StripShape` | frontend/src/features/announcements/markdown.tsx:136-138 | a strip result has no white space at either end; it is the text itself, or as long as it, exactly when the text was not padded |
| `AnnounceText.JoinSplit` | frontend/src/features/announcements/markdown.tsx:261-290 | joining the parts of any split gives the text back, for both separators |
| `AnnounceText.SplitJoin` | frontend/src/features/announcements/markdown.tsx:261-273 | splitting a joined list of lines gives the lines back when none contains the separator |
| `AnnounceNormalize.NormalizeBody` | frontend/src/features/announcements/markdown.tsx:259-274 | the loops compute the composition of the five steps |
| `AnnounceNormalize.NormalizeIsNormal` | frontend/src/features/announcements/markdown.tsx:251-274 | every result is in normal form: no return, no trailing white space, no blank line at an edge or beside another |
| `AnnounceNormalize.NormalIsFixed` | frontend/src/features/announcements/markdown.tsx:251-274 | the bodies that normalising leaves alone are exactly those in normal form |
| `AnnounceNormalize.NormalizeIdempotent` | frontend/src/features/announcements/markdown.tsx:259-274 | normalising twice is normalising once |
| `AnnounceNormalize.NormalizeKeepsInk` | frontend/src/features/announcements/markdown.tsx:251-274 | every character that is not white space survives, in order |
| `AnnounceNormalize.BlocksAreSolid` | frontend/src/features/announcements/markdown.tsx:255-290 | the blocks of a normal body neither start nor end with a newline nor hold two in a row, so no line of a block is empty |
| `AnnounceInline.CodeIs` | frontend/src/features/announcements/markdown.tsx:396-404 | a backtick run written down correctly is recognised, with exactly its content |
| `AnnounceInline.LinkIs` | frontend/src/features/announcements/markdown.tsx:406-415 | a link written down correctly is recognised, with exactly its label and url |
| `AnnounceInline.FrontIs` | frontend/src/features/announcements/markdown.tsx:393-445 | whichever construct is written down correctly at a position is the one found there: earlier tests never shadow it |
| `AnnounceInline.FrontExact` | frontend/src/features/announcements/markdown.tsx:366-445 | a construct is found at a position if and only if the text there starts with a well-formed one, and its extent is exactly its source |
| `AnnounceInline.PiecesTile` | frontend/src/features/announcements/markdown.tsx:366-449 | the pieces that the scan finds tile the line: nothing is dropped, added or reordered |
| `AnnounceInline.LinkTokenOk` | frontend/src/features/announcements/markdown.tsx:459-472 | an accepted link has an unpadded label and a short url that is in-app with one leading slash, or https with a non-empty authority (section 3.2 of RFC 3986) free of `@` |
| `AnnounceInline.AuthorityIsRun` | frontend/src/features/announcements/markdown.tsx:214-226 | for an accepted https url the authority of RFC 3986 is exactly what the narrower class of the pattern takes |
| `AnnounceScan.IndexOf` | frontend/src/features/announcements/markdown.tsx:397 | the search for a delimiter finds the first one, or reports none |
| `AnnounceScan.IndexOfStars` | frontend/src/features/announcements/markdown.tsx:418 | the search for a double star finds the first one, overlaps included |
| `AnnounceScan.NextPiece` | frontend/src/features/announcements/markdown.tsx:393-445 | one turn of the loop finds the construct at its index, in the order code, link, strong, em, character |
| `AnnounceScan.ScanInline` | frontend/src/features/announcements/markdown.tsx:380-449 | the index loop with its buffer computes the scan, and stops at the first refused link |
| `AnnounceScan.ScanShape` | frontend/src/features/announcements/markdown.tsx:380-449 | the tokens of an accepted line are non-empty, no two texts are adjacent, every link is well formed, and a non-empty line has tokens |
| `AnnounceScan.PrintScan` | frontend/src/features/announcements/markdown.tsx:366-472 | printing the tokens of a line gives the line back if and only if no link label is padded, and is shorter otherwise |
| `AnnounceReparse.ReparseExact` | frontend/src/features/announcements/markdown.tsx:380-472 | scanning what an accepted line prints as gives its tokens back if and only if no literal star or bracket is woken: no label of a later link, once the white space at its front is gone, ends a construct that the character opens |
| `AnnounceReparse.LiteralStays` | frontend/src/features/announcements/markdown.tsx:393-445 | a character that opened nothing still opens nothing in the printed text if and only if no label wakes it |
| `AnnounceReparse.UnpaddedReparses` | frontend/src/features/announcements/markdown.tsx:380-472 | every accepted line without a padded label scans to the same tokens again |
| `AnnounceReparse.PaddedReparses` | frontend/src/features/announcements/markdown.tsx:459-461 | every line `*[ *..](..)` with an accepted link is such a case: printed it reads as italics |
| `AnnounceReparse.BracketedReparses` | frontend/src/features/announcements/markdown.tsx:406-415 | so is every line `[..](..[ ..)..](..)`, without any star: printed, its first bracket is a link |
| `AnnouncePadding.CutAtStar` | frontend/src/features/announcements/markdown.tsx:366-449 | wherever a star stands in the printed text, the source has a matching cut, and white space is lost at the cut only in front of the label of a link |
| `AnnouncePatterns.FindsIs` | frontend/src/features/announcements/markdown.tsx:308-348 | a pattern is found exactly when it matches at some position |
| `AnnouncePatterns.EntityIs` | frontend/src/features/announcements/markdown.tsx:182 | an entity is an ampersand, at most one hash, letters or digits, and a semicolon |
| `AnnouncePatterns.ReferenceIs` | frontend/src/features/announcements/markdown.tsx:184 | a reference is two brackets with nothing but white space between |
| `AnnouncePatterns.DashesAre` | frontend/src/features/announcements/markdown.tsx:193 | the dashes of a table row are two or more, with at most one colon after them, white space, and a pipe |
| `AnnouncePatterns.DelimiterRowIs` | frontend/src/features/announcements/markdown.tsx:193 | a table row is a pipe, white space, at most one colon, and such dashes |
| `AnnouncePatterns.HeadingIs` | frontend/src/features/announcements/markdown.tsx:188 | a heading is one to six hashes before white space or the end |
| `AnnouncePatterns.RuleIs` | frontend/src/features/announcements/markdown.tsx:194-197 | a rule is one delimiter and one or more repetitions of it with white space before, between and after |
| `AnnouncePatterns.OrderedIs` | frontend/src/features/announcements/markdown.tsx:198 | an ordered item is digits, a dot or parenthesis, and white space, by code points |
| `AnnouncePatterns.EmptyItemIs` | frontend/src/features/announcements/markdown.tsx:200 | an empty item is a dash and nothing but white space |
| `AnnouncePatterns.DefinitionIs` | frontend/src/features/announcements/markdown.tsx:202 | a definition is a non-empty name in brackets, a colon, and white space |
| `AnnounceRules.FirstBroken` | frontend/src/features/announcements/markdown.tsx:235-249 | the reported rule is the first one that any line breaks, whichever line that is |
| `AnnounceRules.TryRules` | frontend/src/features/announcements/markdown.tsx:332-336 | the two nested loops report exactly that rule |
| `AnnounceRules.RejectLines` | frontend/src/features/announcements/markdown.tsx:330-348 | the line rules come first, then image, html, entity, footnote, reference link |
| `AnnounceBlocks.Paragraph` | frontend/src/features/announcements/markdown.tsx:357-364 | the loop joins the lines with a hard break before each but the first |
| `AnnounceBlocks.Items` | frontend/src/features/announcements/markdown.tsx:303 | the items are scanned in order without their markers, up to the first refusal |
| `AnnounceBlocks.TokenizeBody` | frontend/src/features/announcements/markdown.tsx:284-306 | the method computes the parse: body rules, line rules, then the blocks in order with at most one list; which bodies that accepts, and as what, is said by `AnnounceRefused.BodyRefused` and `AnnounceWritten.BodyIsRead` |
| `AnnounceTree.LinesOfBlocks` | frontend/src/features/announcements/markdown.tsx:284-348 | every line of a block is a line of the body, so the line rules hold of it |
| `AnnounceTree.AcceptedIsWellFormed` | frontend/src/features/announcements/markdown.tsx:284-472 | an accepted body in normal form gives a well-formed tree: at most one list, of one to five non-empty items; no paragraph empty, starting or ending with a hard break, or with two in a row; all lines well formed |
| `AnnounceTree.BodyRoundTrip` | frontend/src/features/announcements/markdown.tsx:284-472 | printing the tree of any accepted body gives the body back if and only if no link label in it is padded |
| `AnnounceTree.Render` | frontend/src/features/announcements/markdown.tsx:486-510 | what is rendered is the tree, or every line of the normalised body as literal text |
| `AnnounceTree.RenderKeepsWords` | frontend/src/features/announcements/markdown.tsx:476-510 | what is rendered prints as the normalised body, unless a body with a padded label was accepted; a rendered tree is well formed |
| `Utf16.PointsEncode` | frontend/src/features/announcements/markdown.tsx:160-169 | the string iterator reads code points back from their UTF-16 form (section 2.1 of RFC 2781), surrogates that stand alone included |
| `Utf16.EncodePoints` | frontend/src/features/announcements/markdown.tsx:160-169 | every string of units, well formed or not, is the UTF-16 form of what its iterator yields, and that joins no two surrogates |
| `AnnounceUtf16.SpanEncode` | frontend/src/features/announcements/markdown.tsx:375-378 | cutting at the end of a run is the same cut on UTF-16 units and on code points |
| `AnnounceUtf16.FrontWide` | frontend/src/features/announcements/markdown.tsx:375-378 | half of a surrogate pair is never taken for a delimiter |
| `AnnounceUtf16.LinkTokenEncode` | frontend/src/features/announcements/markdown.tsx:459-472 | a link is accepted, refused and classified alike in both readings |
| `AnnounceUtf16.ScanRefines` | frontend/src/features/announcements/markdown.tsx:375-449 | scanning the UTF-16 form of a line gives the UTF-16 form of the tokens of its code points, or the same refusal |
| `AnnounceRefine.BreaksEncode` | frontend/src/features/announcements/markdown.tsx:186-249 | every line rule judges the two readings of a line alike |
| `AnnounceRefine.VerdictEncode` | frontend/src/features/announcements/markdown.tsx:308-348 | so does every rule of the body, lengths included |
| `AnnounceRefine.TokenizeRefines` | frontend/src/features/announcements/markdown.tsx:284-472 | the whole parse of the UTF-16 form is the UTF-16 form of the parse, or the same refusal |
| `AnnounceRefine.NormalizeRefines` | frontend/src/features/announcements/markdown.tsx:140-158 | normalising commutes with the change of reading |
| `AnnounceRefine.NormalizePaired` | frontend/src/features/announcements/markdown.tsx:259-274 | normalising brings no two lone surrogates together |
| `AnnounceRefine.PipelineRefines` | frontend/src/features/announcements/markdown.tsx:259-472 | from the raw body to the tree the two readings agree, on whatever the iterator can yield |
| `AnnounceRefine.UnitsRefine` | frontend/src/features/announcements/markdown.tsx:259-472 | so they do for every string of UTF-16 units, lone surrogates included: the tree of the units is the UTF-16 form of the tree of the code points, or the refusal is the same |
| `AnnounceLetters.LinesAre` | frontend/src/features/announcements/markdown.tsx:261-331 | splitting at line breaks gives exactly the stretches between one line break or edge and the next |
| `AnnounceLetters.LineCount` | frontend/src/features/announcements/markdown.tsx:312-315 | a body has one line more than it has line breaks |
| `AnnounceLetters.ControlIs` | frontend/src/features/announcements/markdown.tsx:175 | a control character is one below U+0020, or U+007F, other than the line break |
| `AnnounceLetters.BidiIs` | frontend/src/features/announcements/markdown.tsx:179 | a direction mark is one of the twelve listed |
| `AnnounceLetters.ImageIs` | frontend/src/features/announcements/markdown.tsx:180 | an image is an exclamation mark and an opening bracket side by side |
| `AnnounceLetters.HtmlIs` | frontend/src/features/announcements/markdown.tsx:181 | HTML is a `<` before a letter, `/`, `!` or `?` |
| `AnnounceLetters.EntityAnywhere` | frontend/src/features/announcements/markdown.tsx:182 | an entity stands from an `&` to a `;` with letters or digits between, after a `#` or not |
| `AnnounceLetters.FootnoteIs` | frontend/src/features/announcements/markdown.tsx:183 | a footnote is an opening bracket and a caret side by side |
| `AnnounceLetters.ReferenceAnywhere` | frontend/src/features/announcements/markdown.tsx:184 | a reference is a closing and an opening bracket with nothing but white space between |
| `AnnounceLetters.RowAnywhere` | frontend/src/features/announcements/markdown.tsx:193 | a table row is found by the positions of its two pipes, its dashes and its colons |
| `AnnounceLetters.DefinitionLineIs` | frontend/src/features/announcements/markdown.tsx:202 | a definition is found by the positions of its brackets and its colon |
| `AnnounceAccept.VerdictIs` | frontend/src/features/announcements/markdown.tsx:235-348 | a body is refused with a code before it is parsed if and only if it breaks the rule of that code, by the characters at its positions, and none with a lower number: nineteen rules in all, with the limits 600 and 12; it passes if and only if it breaks none |
| `AnnounceAccept.Stripped` | frontend/src/features/announcements/markdown.tsx:136-138 | stripping leaves the stretch between the first and the last character that are no white space |
| `AnnounceAccept.LinkRulingIs` | frontend/src/features/announcements/markdown.tsx:452-472 | a link is refused for a blank label, an url of more than 300 code points, a url that opens as neither https nor a path, and one with a character out of place, in this order, and for nothing else |
| `AnnounceAccept.LinkTokenIs` | frontend/src/features/announcements/markdown.tsx:452-472 | an accepted link keeps its url and its stripped label, and is external exactly for https |
| `AnnounceWritten.LineIsRead` | frontend/src/features/announcements/markdown.tsx:380-449 | a line of texts, bold, italics, code and links, written down with their marks, is read as exactly those if and only if no text of it opens anything where it stands |
| `AnnounceWritten.NoMarksIsQuiet` | frontend/src/features/announcements/markdown.tsx:380-449 | a text without a backtick, a star or an opening bracket opens nothing, whatever follows it |
| `AnnounceWritten.BlocksSplit` | frontend/src/features/announcements/markdown.tsx:290 | blocks without empty lines, joined by blank lines, are what the body splits into |
| `AnnounceWritten.BodyIsRead` | frontend/src/features/announcements/markdown.tsx:284-306 | a body of paragraphs and at most one list of up to five items, written down with its marks, is accepted and read as exactly that tree if and only if it breaks none of the nineteen rules and no text of it opens anything |
| `AnnounceWritten.FrontSays` | frontend/src/features/announcements/markdown.tsx:366-445 | a construct stands at the front of a text if and only if the text opens with its marks around a content it may have, character by character |
| `AnnounceRefused.ScanRefused` | frontend/src/features/announcements/markdown.tsx:380-472 | a line is refused with a code if and only if its first link that is refused has that code |
| `AnnounceRefused.BlockRulingIs` | frontend/src/features/announcements/markdown.tsx:290-304 | a block is refused for mixing items and other lines, for a second list, for more than five items, or for its first refused link, and a block that is not is a list exactly if every line opens with a dash and a space |
| `AnnounceRefused.BodyRefused` | frontend/src/features/announcements/markdown.tsx:284-348 | a body is refused with a code if and only if that is its verdict, or it has no verdict and its first refused block, given the lists before it, has that code |
| `AnnounceRefused.LinkIsAccepted` | frontend/src/features/announcements/markdown.tsx:284-472 | for every label of letters, digits and inner spaces and every accepted url without an entity, the link by itself is one paragraph that holds it |
| `NormalByLines.LinesRead` | frontend/src/features/announcements/markdown.tsx:259-261 | the lines are what stands between the ends, each of them CR LF, CR or LF |
| `NormalByLines.NormalSays` | frontend/src/features/announcements/markdown.tsx:251-274 | the result, in full: the lines are trimmed, the blank ones at the edges go, and groups of other lines stand exactly one blank line apart |
| `NormalByLines.LiteralSays` | frontend/src/features/announcements/markdown.tsx:476-510 | a refused body is shown line by line, with a hard break between any two |
| `TerrainFold.FoldMaps.constructor` | frontend/src/features/live-trace/terrain-fold.ts:64-66 | the three maps start empty |
| `TerrainFold.FoldMaps.ApplyUpdate` | frontend/src/features/live-trace/terrain-fold.ts:136-167 | one update raises one node to the higher state, or latches one flag; unknown ids and absent values change nothing |
| `TerrainFold.LoadBase` | frontend/src/features/live-trace/terrain-fold.ts:64-76 | the maps start as the base graph, the last of repeated ids winning |
| `TerrainFold.ApplyPrefix` | frontend/src/features/live-trace/terrain-fold.ts:78-81 | the maps take in exactly the updates up to `k`, clamped to the array |
| `TerrainFold.Backstop` | frontend/src/features/live-trace/terrain-fold.ts:89-106 | exactly the arrival edges are activated besides |
| `TerrainFold.FoldTerrain` | frontend/src/features/live-trace/terrain-fold.ts:58-134 | the loops build the fold to `k`, in the order of the base, with the pulse split by kind; `FoldByIndex.FoldIsByIndex` says what it shows, position by position |
| `TerrainFold.ClimbIsJoin` | frontend/src/features/live-trace/terrain-fold.ts:142-151 | the state of a node is the join of its base and the states offered to it |
| `TerrainFold.FoldClosedForm` | frontend/src/features/live-trace/terrain-fold.ts:58-134 | a node shows the join of base and prefix; a group is discovered and an edge active exactly when the base, an update of the prefix, or for an edge the arrival rule says so |
| `TerrainFold.FoldIgnoresOrder` | frontend/src/features/live-trace/terrain-fold.ts:64-119 | permuting or repeating updates inside the prefix changes nothing |
| `TerrainFold.RebaseBases` | frontend/src/features/live-trace/terrain-fold.ts:108-119 | a graph rebuilt from a fold has that fold as its base |
| `TerrainFold.StatesClimb` | frontend/src/features/live-trace/terrain-fold.ts:50-57 | between two fold points no state falls back and every arrival stays one |
| `TerrainFold.Checkpoint` | frontend/src/features/live-trace/terrain-fold.ts:58-134 | folding the rest of the log onto the fold at `j` gives the fold at `k`, backstop edges included |
| `TerrainFold.FoldMonotone` | frontend/src/features/live-trace/terrain-fold.ts:50-57 | node rank, `discovered` and `active` never decrease in `k` |
| `TerrainFold.FoldOfNothing` | frontend/src/features/live-trace/terrain-fold.ts:53-106 | at `k < 0` nodes and groups are the base, and edges are if and only if every arrival edge of the base was already active |
| `ProbePath.ProbingPathEdgeIds` | frontend/src/features/live-trace/terrain-fold.ts:175-199 | the search ends, and returns exactly the ids of edges whose target is upstream of a seed with no agent in between |
| `ProbePath.SearchVisits` | frontend/src/features/live-trace/terrain-fold.ts:189-197 | visiting a node keeps the search invariant |
| `ProbePath.SearchEnds` | frontend/src/features/live-trace/terrain-fold.ts:189-198 | when the stack is empty the visited nodes are exactly the upstream ones |
| `ProbePath.ClosedContains` | frontend/src/features/live-trace/terrain-fold.ts:169-174 | every walk back from a seed stays in any set closed under the search |
| `ProbePath.PathOfUnion` | frontend/src/features/live-trace/terrain-fold.ts:175-199 | the path of a union of seeds is the union of the paths |
| `InfraRows.FoldIndexForEvent` | frontend/src/features/live-trace/terrain-fold.ts:218-236 | the loop finds the last update of the span, or the number of an infra id if it is in range; `SpansByName.RewindsToSpan` and `RewindsToNumber` say which that is by the spelling of the ids |
| `InfraRows.DeriveInfraRows` | frontend/src/features/live-trace/terrain-fold.ts:273-305 | one row per key, sorted by number, each the sum of its updates |
| `InfraRows.AccClosedForm` | frontend/src/features/live-trace/terrain-fold.ts:281-295 | a key has a row exactly when some infra update has it, and the row carries its greatest number |
| `InfraRows.TitleIsANote` | frontend/src/features/live-trace/terrain-fold.ts:289 | the title is the note of one of its updates, and empty only if all notes are |
| `InfraRows.TargetIsShown` | frontend/src/features/live-trace/terrain-fold.ts:290-293 | the target is one of the touched elements, and an agent edge only if all are |
| `InfraRows.RowsPartition` | frontend/src/features/live-trace/terrain-fold.ts:265-305 | in an array numbered by index the rows have strictly increasing numbers, every infra update is in one row, and a row ends at its last update |
| `InfraRows.SelectingARowRewinds` | frontend/src/features/live-trace/terrain-fold.ts:218-226 | selecting a row rewinds to its last update |
| `InfraRows.PulseIdsForIndex` | frontend/src/features/live-trace/terrain-fold.ts:312-333 | the pulse at an index is its target and those of all updates of the same moment; out of range it is empty |
| `InfraRows.RowsAreActivities` | frontend/src/features/live-trace/terrain-fold.ts:265-283 | rows are exactly the activities if and only if no receipt time is spelled like the key of an anchorless update |
| `InfraRows.PulseCoversExactly` | frontend/src/features/live-trace/terrain-fold.ts:265-333 | the pulse at a row covers every element of the row if and only if every update of the row that is of another activity than its last one repeats an element of that activity |
| `InfraRows.WireRowsAreActivities` | src/xorcise/core/runs/terrain_timeline.py:35-53 | in every log the server can send, where a time starts with a digit, no key clashes and rows are exactly the activities |
| `InfraRows.WirePulseIsRow` | frontend/src/features/live-trace/terrain-fold.ts:265-333 | in every such log the pulse at a row shows, of the infra elements, exactly those of the row |
| `FoldByIndex.FoldIsByIndex` | frontend/src/features/live-trace/terrain-fold.ts:50-134 | the fold to `k` shows, for every element of the base, its last base value and what the updates at positions 0 to `k`, that one included, set it to: a node is completed, discovered or defined by the names of the states, and an edge is active too where an agent has arrived |
| `FoldByIndex.LatestTakesAll` | frontend/src/features/live-trace/terrain-fold.ts:50-57 | from the last position on every fold takes in the whole log |
| `FoldByIndex.PulseIs` | frontend/src/features/live-trace/terrain-fold.ts:121-131 | the pulse holds the pulsed ids under each kind of element that has them |
| `PathByEdges.UpstreamSays` | frontend/src/features/live-trace/terrain-fold.ts:175-199 | a place is on the way if and only if it is no agent and is a seed or an edge leads from it to a place on the way |
| `PathByEdges.PathSays` | frontend/src/features/live-trace/terrain-fold.ts:175-199 | an edge is on the path if and only if it ends at such a place |
| `SpansByName.BaseIs` | frontend/src/features/live-trace/terrain-fold.ts:201-206 | the base of an id is what stands before its last colon, or the id if it has none |
| `SpansByName.BaseOfSpan` | frontend/src/features/live-trace/terrain-fold.ts:201-206 | the base of `b:x` is `b` for every `x` without a colon, and an id is its own base if and only if it has no colon |
| `SpansByName.RewindsToSpan` | frontend/src/features/live-trace/terrain-fold.ts:208-236 | any other id rewinds to the last position whose update has an id with the same base, and to none if there is none |
| `SpansByName.RewindsToNumber` | frontend/src/features/live-trace/terrain-fold.ts:219-226 | `infra:` and digits rewinds to the position of that number, if there is one |
| `SpansByName.InfraAtIs` | frontend/src/features/live-trace/terrain-fold.ts:238-249 | an infra update has no event and touches the agent, the collector or an id of one of three families |
| `SpansByName.OneMomentIs` | frontend/src/features/live-trace/terrain-fold.ts:265-283 | in logs the server sends, updates share a row if and only if they share a receipt time, or are the same update |
| `SpansByName.NoteIsFirst` | frontend/src/features/live-trace/terrain-fold.ts:289 | the title of a row is its first note that is not empty |
| `SpansByName.TargetIsFirst` | frontend/src/features/live-trace/terrain-fold.ts:290-293 | the target of a row is the first one that is no edge of the agent, or the first of all |
| `SpansByName.RowsSay` | frontend/src/features/live-trace/terrain-fold.ts:265-305 | every row is that of one moment: numbered by its last position, with its time, its first note or else its target |
| `SpansByName.RowsCover` | frontend/src/features/live-trace/terrain-fold.ts:265-305 | every infra update is of the moment of exactly one row |
| `SpansByName.PulseByIndex` | frontend/src/features/live-trace/terrain-fold.ts:307-333 | the pulse at a position is everything touched by the same event, or for an infra update at the same receipt time, or without one its own target |
| `TerrainLayout.CollapseEndpoints` | frontend/src/features/live-trace/terrain-layout.ts:100-108 | every endpoint with a drawn parent is collapsed onto it, with its route and the join of states |
| `TerrainLayout.LayBand` | frontend/src/features/live-trace/terrain-layout.ts:117-147 | one more band, with its members in slots |
| `TerrainLayout.LayEdges` | frontend/src/features/live-trace/terrain-layout.ts:165-172 | exactly the edges whose two ends resolve to different points are drawn, in order |
| `TerrainLayout.Resolve` | frontend/src/features/live-trace/terrain-layout.ts:152-163 | an id resolves to its node, else its parent service, else its band |
| `TerrainLayout.LayoutTerrainV2` | frontend/src/features/live-trace/terrain-layout.ts:82-175 | the loops build the layout of the authored graph with the states of the fold; `LayoutByIds` says it by ids, states and numbers |
| `TerrainLayout.FoldKeepsGraph` | frontend/src/features/live-trace/terrain-fold.ts:108-119 | a fold keeps the authored graph |
| `TerrainLayout.TimeTravelKeepsCoordinates` | frontend/src/features/live-trace/terrain-layout.ts:3-23 | every coordinate of the layout is the same at all fold points |
| `TerrainLayout.BandsAreDisjoint` | frontend/src/features/live-trace/terrain-layout.ts:116-148 | the bands are the groups by order, disjoint with a gap, and inside the picture |
| `TerrainLayout.SpotsInside` | frontend/src/features/live-trace/terrain-layout.ts:122-144 | every disc and its slot lie inside the band of its group |
| `TerrainLayout.PlacedPerGroup` | frontend/src/features/live-trace/terrain-layout.ts:117-144 | a drawn node is placed once for each group with its group id |
| `TerrainLayout.EachDrawnNodeOnce` | frontend/src/features/live-trace/terrain-layout.ts:117-144 | a drawn node is placed exactly once if and only if its group id is unique |
| `TerrainLayout.EffectiveIsJoin` | frontend/src/features/live-trace/terrain-layout.ts:76-108 | the state shown is the join of the node and its collapsed endpoints |
| `TerrainLayout.EffectiveMonotone` | frontend/src/features/live-trace/terrain-layout.ts:96-108 | that state never falls back in `k` |
| `TerrainLayout.ShownStateMonotone` | frontend/src/features/live-trace/terrain-layout.ts:129-133 | neither does the state of any laid-out node |
| `LayoutByIds.ParentIs` | frontend/src/features/live-trace/terrain-layout.ts:70-74 | the service of an endpoint is what stands before the first colon of its id |
| `LayoutByIds.ParentOfRoute` | frontend/src/features/live-trace/terrain-layout.ts:70-74 | the service of `p:rest` is `p` for every `p` without a colon, and an id without a colon is its own |
| `LayoutByIds.RoutesShownAre` | frontend/src/features/live-trace/terrain-layout.ts:92-108 | the routes of a service are its endpoints in groups of the map, in the order of the nodes |
| `LayoutByIds.StateIs` | frontend/src/features/live-trace/terrain-layout.ts:76-108 | the state shown is the highest among the node and its endpoints, by the names of the states |
| `LayoutByIds.FrameIs` | frontend/src/features/live-trace/terrain-layout.ts:116-148 | 760 by 22 and 112 for each band, at least 40; bands of 720 by 94 at 20 and 112 further down each, in stable order of the groups |
| `LayoutByIds.CirclesStand` | frontend/src/features/live-trace/terrain-layout.ts:117-147 | every circle of radius 16 stands in the middle of its slot of its band, 48 below the top |
| `LayoutByIds.CirclesDraw` | frontend/src/features/live-trace/terrain-layout.ts:117-147 | it draws the node that comes so many-th in its group, with the routes and the state of its service |
| `LayoutByIds.NodesCount` | frontend/src/features/live-trace/terrain-layout.ts:117-147 | nothing else is laid out as a node |
| `LayoutByIds.EndIs` | frontend/src/features/live-trace/terrain-layout.ts:150-163 | an end of an edge is the centre of the last node of that id, else that of the service of the endpoint, else the top of the band |
| `LayoutByIds.EdgesAre` | frontend/src/features/live-trace/terrain-layout.ts:165-172 | the edges drawn are those with two different ends on the map, in order, each from its source to its target |
| `ReplayOrder.EventOrderIsTotal` | frontend/src/features/replay/replay-order.ts:14-32 | the event comparator is a total preorder, whatever times are missing |
| `ReplayOrder.EventTies` | frontend/src/features/replay/replay-order.ts:14-28 | events that compare equal have ids that collate equal |
| `ReplayOrder.OrderInfraSorted` | frontend/src/features/replay/replay-order.ts:61-70 | the infra list is sorted by time then number, anchorless rows last |
| `ReplayOrder.FindBoundary` | frontend/src/features/replay/replay-order.ts:79-84 | the loop finds the place after the last item received strictly before |
| `ReplayOrder.FillBuckets` | frontend/src/features/replay/replay-order.ts:72-86 | every bucket holds the rows of its place, in order |
| `ReplayOrder.MergeAgentAndInfra` | frontend/src/features/replay/replay-order.ts:52-96 | the merge is the buckets and agent items in turn |
| `ReplayOrder.BoundaryIsLast` | frontend/src/features/replay/replay-order.ts:79-84 | every item received strictly before a row precedes it, and the item right before it is one of those: ties never push the row later |
| `ReplayOrder.PlaceIsUnique` | frontend/src/features/replay/replay-order.ts:73-86 | that property determines the place |
| `ReplayOrder.PlaceMonotone` | frontend/src/features/replay/replay-order.ts:61-86 | later rows have later places |
| `ReplayOrder.MergeIsInterleaving` | frontend/src/features/replay/replay-order.ts:38-96 | the agent projection of the merge is the input, the infra projection the sorted rows, and every row stands at its place |
| `ReplayOrder.MergeIsUnique` | frontend/src/features/replay/replay-order.ts:38-96 | no other list has these three properties |
| `RunEvents.RunEventsHook.constructor` | frontend/src/features/replay/use-run-events.ts:24-31 | the hook starts with no events and cursors at -1 |
| `RunEvents.RunEventsHook.Reset` | frontend/src/features/replay/use-run-events.ts:46-52 | a change of run resets everything |
| `RunEvents.RunEventsHook.OnPage` | frontend/src/features/replay/use-run-events.ts:54-92 | one page advances the cursors, adds its unseen events in order, and sets the stall mark |
| `RunEvents.NewestReceipt` | frontend/src/features/replay/use-run-events.ts:79-84 | the first batch is stamped with its newest readable receipt, or the clock |
| `RunEvents.StepExact` | frontend/src/features/replay/use-run-events.ts:73-91 | a page adds each of its new events exactly once if and only if its new ids are distinct |
| `RunEvents.RunExact` | frontend/src/features/replay/use-run-events.ts:54-92 | after any run of pages the list holds every delivered event exactly once if and only if no page repeats an id that is new to it |
| `RunEvents.RunAccumulates` | frontend/src/features/replay/use-run-events.ts:54-92 | under that condition the run ends with exactly the delivered events, sorted, each once, and their ids |
| `RunEvents.PagingIndependence` | frontend/src/features/replay/use-run-events.ts:54-92 | two such runs that deliver the same events, no two of which compare equal, end with the same list, however the events were split, repeated or reordered |
| `RunEvents.OrderIsFixedIffNoTies` | frontend/src/features/replay/use-run-events.ts:89-91 | for any set of events, all such runs that deliver it end with the same list if and only if no two of the events compare equal |
| `RunEvents.StepNeverGoesBack` | frontend/src/features/replay/use-run-events.ts:62-87 | no cursor decreases in a step, nor does the stall mark |
| `RunEvents.RunNeverGoesBack` | frontend/src/features/replay/use-run-events.ts:26-31 | nor over a whole run with a clock that does not go back |
| `ReplayTimeline.AgentCards` | frontend/src/features/replay/replay-timeline.tsx:100-133 | the loops build one card per event that is not a paired output, with the last output of its base |
| `ReplayTimeline.GroupTurns` | frontend/src/features/replay/replay-timeline.tsx:331-357 | the turn loop renders the grouping of the merged cards |
| `ReplayTimeline.Entries` | frontend/src/features/replay/replay-timeline.tsx:317-358 | the memo renders cards, sorted, merged and grouped; `TimelineByEvents` says where each card and row stands by the fields of events and rows |
| `ReplayTimeline.CardOrderIsTotal` | frontend/src/features/replay/replay-timeline.tsx:318-324 | the card comparator is a total preorder |
| `ReplayTimeline.OrdersAgree` | frontend/src/features/replay/replay-timeline.tsx:119-324 | it agrees with the event comparator on two events exactly when both times are readable or neither is |
| `ReplayTimeline.TimelineKeepsOrder` | frontend/src/features/replay/replay-timeline.tsx:317-324 | the card sort leaves a list in accumulator order as it is if and only if the events with a card of their own all have readable times or none has |
| `ReplayTimeline.GroupingIsExact` | frontend/src/features/replay/replay-timeline.tsx:331-357 | flattening the turns gives the merged order back, every turn is of one group and no two adjacent turns are of the same |
| `ReplayTimeline.CardsShow` | frontend/src/features/replay/replay-timeline.tsx:100-133 | how often the cards show an event, for every event |
| `ReplayTimeline.CardsConserve` | frontend/src/features/replay/replay-timeline.tsx:98-133 | the cards hold every event exactly once if and only if every paired output is the only one of its one command |
| `ReplayTimeline.DisplayConserves` | frontend/src/features/replay/replay-timeline.tsx:317-358 | sorting, merging and grouping change no count; the rows shown are the sorted rows |
| `ReplayTimeline.EveryEventOnce` | frontend/src/features/replay/replay-timeline.tsx:317-358 | every visible event is shown exactly once under the same condition, and only then |
| `ReplayTimeline.CommandThenOutput` | frontend/src/features/replay/replay-timeline.tsx:98-116 | a command is directly followed by its output in one turn, wherever the rows fall |
| `RunByPages.RunCursors` | frontend/src/features/replay/use-run-events.ts:54-65 | after any run each cursor is the greatest of -1 and what the pages say of its own stream, one number standing for both in pages of an older server |
| `RunByPages.PageSays` | frontend/src/features/replay/use-run-events.ts:73-91 | a page adds its events of unseen ids, each as often as it holds them; it sets the stall mark to the clock, or if nothing was seen before to the newest readable time that is not past the clock |
| `RunByPages.RunInOrder` | frontend/src/features/replay/replay-order.ts:14-32 | the list of any run is in order of time, unreadable last, then signal, position and id |
| `TimelineByEvents.RowStands` | frontend/src/features/replay/replay-order.ts:38-96 | a row with a readable time follows every card whose first event was received before that time, and the card right before it, if any, is one of those; a row without one follows all cards |
| `TimelineByEvents.RowsInOrder` | frontend/src/features/replay/replay-order.ts:61-70 | the rows come by time, unreadable last, then by number |
| `TimelineByEvents.CardsStand` | frontend/src/features/replay/replay-timeline.tsx:98-133 | each card is that of a visible event, with its key, group, times and signal, and an event opens as many cards as it occurs, or none if it is the output of a visible command |
| `TimelineByEvents.CardsInTurn` | frontend/src/features/replay/replay-timeline.tsx:318-324 | the cards come by the time of their first event, unreadable first, then by signal, position and id |
| `TimelineByEvents.EntriesCut` | frontend/src/features/replay/replay-timeline.tsx:331-357 | the entries cut cards and rows into stretches, in order: each row by itself, and the cards between rows wherever the group changes and nowhere else, under the id and the receipt of the first |
| `TimelineByEvents.CommandAndOutput` | frontend/src/features/replay/replay-timeline.tsx:71-116 | a command and the last visible output of its base stand side by side in one turn |
| `HarnessMatch.LongestBlockIsLongest` | frontend/src/features/agents/harness-selector.tsx:18-27 | the scan yields the longest common block, earliest in the first string and then in the second |
| `HarnessMatch.FindBlock` | frontend/src/features/agents/harness-selector.tsx:18-27 | the nested loops find that block |
| `HarnessMatch.ChoicesAreUnique` | frontend/src/features/agents/harness-selector.tsx:17-34 | the blocks that the recursion chooses are determined by the two strings |
| `HarnessMatch.ChoicesGiveValue` | frontend/src/features/agents/harness-selector.tsx:17-34 | the matching number is the total size of those blocks |
| `HarnessMatch.MatchingChars` | frontend/src/features/agents/harness-selector.tsx:17-34 | the recursion ends and computes the matching number |
| `HarnessMatch.MatchAt` | frontend/src/features/agents/harness-selector.tsx:29-33 | that number is determined by the longest block alone |
| `HarnessMatch.MatchedIsCommon` | frontend/src/features/agents/harness-selector.tsx:14-34 | it is the length of a common subsequence |
| `HarnessMatch.MatchingBounds` | frontend/src/features/agents/harness-selector.tsx:14-34 | it is at most either length, zero exactly without a shared character, and full exactly for equal strings |
| `HarnessMatch.MirroredIsFirst` | frontend/src/features/agents/harness-selector.tsx:17-43 | the blocks chosen for the swapped strings are the same ones if and only if, level by level, the longest block chosen starts first in both strings |
| `HarnessMatch.MatchingIsSymmetric` | frontend/src/features/agents/harness-selector.tsx:17-43 | the number does not depend on the order of two such strings, among them all whose longest common block is the only one at every level |
| `HarnessMatch.ClosestKind` | frontend/src/features/agents/harness-selector.tsx:37-47 | the result is a candidate of the highest ratio, at least 3/5, the last on a tie; nothing if and only if there is none |
| `HarnessMatch.RatioIsOne` | frontend/src/features/agents/harness-selector.tsx:43 | the ratio is at most one, and one exactly for the same string |
| `LabelWrap.WrapText` | frontend/src/features/live-trace/terrain-map.tsx:352-368 | the lines are a greedy wrap of the words |
| `LabelWrap.WordsHoldAll` | frontend/src/features/live-trace/terrain-map.tsx:353 | the words are the text without its white space |
| `LabelWrap.GreedyIsOptimal` | frontend/src/features/live-trace/terrain-map.tsx:349-368 | no other way to break the words into lines that fit uses fewer lines |
| `LabelWrap.GreedyIsUnique` | frontend/src/features/live-trace/terrain-map.tsx:352-368 | the words and the width determine the lines |
| `LabelWrap.GreedyFits` | frontend/src/features/live-trace/terrain-map.tsx:356-366 | every line fits when every word does |
| `LabelWrap.LabelLines` | frontend/src/features/live-trace/terrain-map.tsx:92-107 | the label lines are a greedy wrap of the words chopped to the width |
| `LabelWrap.LabelLinesHoldAll` | frontend/src/features/live-trace/terrain-map.tsx:92-107 | every line fits and nothing but white space is lost |
| `LabelWrap.ClampLabel` | frontend/src/features/live-trace/terrain-map.tsx:82-116 | at most two lines, none too long; nothing but white space is lost unless truncation is reported |
| `Ansi.SgrIsCsi` | frontend/src/features/replay/syntax.tsx:220-221 | a colour sequence is a control sequence of the same length |
| `Ansi.PatternsAgree` | frontend/src/features/replay/event-card.tsx:97 | the two patterns find the same sequences (section 5.4 of ECMA-48) |
| `Ansi.KeptIsStripped` | frontend/src/features/replay/syntax.tsx:230-233 | replacing by the two-branch pattern is `stripAnsi` |
| `Ansi.SpansOf` | frontend/src/features/replay/syntax.tsx:234-277 | the loop with its colour, weight and position computes the chunks |
| `Ansi.UpdateStyle` | frontend/src/features/replay/syntax.tsx:260-274 | the parameter loop folds the SGR parameters (section 8.3.117 of ECMA-48) |
| `Ansi.RenderAnsi` | frontend/src/features/replay/syntax.tsx:228-278 | plain stripped text for an input that is empty, too long or without escapes, and the styled chunks otherwise |
| `Ansi.RenderingStrips` | frontend/src/features/replay/syntax.tsx:228-278 | on every path the text shown is the text with its control sequences stripped |
| `Ansi.ChunksAreSegments` | frontend/src/features/replay/syntax.tsx:254-276 | every chunk is one whole stretch between matches, in the style of exactly the sequences before it |
| `Ansi.StripFixes` | frontend/src/features/replay/event-card.tsx:97-101 | stripping leaves a text alone, and as long as it was, if and only if it holds no control sequence |
| `Ansi.StripTwice` | frontend/src/features/replay/event-card.tsx:97-101 | a second pass changes nothing if and only if no escape character of the text that starts no sequence is followed by the rest of one, whole sequences in between not counted; an escape character is left if and only if one of the text lies in no match |
| `Ansi.CsiCompletes` | frontend/src/features/replay/event-card.tsx:97 | a text starts with a control sequence if and only if it is an escape character and a text that completes one, read character by character |
| `Ansi.BoldIsLast` | frontend/src/features/replay/syntax.tsx:263-273 | the weight is set by the last parameter that sets it, a reset included, and kept without one |
| `Ansi.ColorIsLast` | frontend/src/features/replay/syntax.tsx:263-273 | the colour is set by the last parameter that sets it, bright where the text is bold at that parameter, and kept without one |
| `Ansi.StyleIsParams` | frontend/src/features/replay/syntax.tsx:254-276 | the style of a chunk is that of all the parameters before it in turn |
| `ShellQuote.QuotedIsOneWord` | frontend/src/features/agents/register-agent-page.tsx:30-34 | wherever a quoted value starts a word, the shell reads exactly that value (sections 2.2.1 to 2.2.3 of the POSIX Shell Command Language) |
| `ShellQuote.QuoteRoundTrip` | frontend/src/features/agents/register-agent-page.tsx:30-34 | a quoted value alone is one word, equal to the value, for every string |
| `ShellQuote.LineRoundTrip` | frontend/src/features/agents/register-agent-page.tsx:30-34 | a line of quoted values is read as exactly those values |
| `ShellQuote.SafeTextIsLiteral` | frontend/src/features/agents/register-agent-page.tsx:31-32 | no character that goes without quotes is special to the shell, at the start of a word or further on (section 2.2) |
| `ShellQuote.BareIsExact` | frontend/src/features/agents/register-agent-page.tsx:31-32 | a bare text is read as itself if and only if it is not empty and none of its characters is special where it stands |
| `ShellQuote.QuotesLeftOff` | frontend/src/features/agents/register-agent-page.tsx:30-34 | quotes are left off exactly for the safe values, which are read as themselves, and put on without need exactly for the other values that are literal throughout |
| `ShellQuote.AssignmentShows` | frontend/src/features/agents/register-agent-page.tsx:31-32 | a quoted value is an assignment word (section 2.9.1) if and only if it is bare and of that form |
| `Fingerprint.FinishedRuns` | frontend/src/features/results/queries.ts:150-167 | the loops compute count and hash of the sorted ids; unknown or absent before that |
| `Fingerprint.IdOrderIsTotal` | frontend/src/features/results/queries.ts:156 | the default sort order is total and has no ties between different ids |
| `Fingerprint.KeyIsOrderFree` | frontend/src/features/results/queries.ts:154-156 | the key does not depend on the order of the runs |
| `Fingerprint.KeyShowsBoth` | frontend/src/features/results/queries.ts:165 | a key determines the count and the hash |
| `Fingerprint.KeyShowsCount` | frontend/src/features/results/queries.ts:144-148 | one run more or fewer always changes the key |
| `Fingerprint.StepInjective` | frontend/src/features/results/queries.ts:159-160 | a step of FNV-1a is a bijection in the hash and in the unit |
| `Fingerprint.OneUnitShows` | frontend/src/features/results/queries.ts:157-164 | streams that differ in one unit never share a hash |
| `Fingerprint.OneUnitChangesKey` | frontend/src/features/results/queries.ts:157-165 | so neither do the keys |
| `Fingerprint.SortedStreamTells` | frontend/src/features/results/queries.ts:154-163 | the hashed streams of two lists of comma-free ids, each sorted, are the same if and only if the lists hold the same ids, each as often |
| `Fingerprint.StreamTellsApart` | frontend/src/features/results/queries.ts:162-163 | in particular id lists without commas have the same stream only if they are the same |
| `Fingerprint.CommasCollide` | frontend/src/features/results/queries.ts:162-165 | where ids hold commas even the whole key of two lists can be the same |
| `KindByCount.ClosestSays` | frontend/src/features/agents/harness-selector.tsx:37-47 | the suggestion matches at least 3 of 10 characters of both strings together, counted once, no candidate before it a greater share and none after it as great; there is none if and only if no candidate matches that many |
| `LabelByChars.WordsRead` | frontend/src/features/live-trace/terrain-map.tsx:353 | the words are what stands between the gaps, whatever white space those are made of |
| `LabelByChars.PiecesSay` | frontend/src/features/live-trace/terrain-map.tsx:92-100 | a chopped word is pieces of the full width and a last one |
| `LabelByChars.BudgetSays` | frontend/src/features/live-trace/terrain-map.tsx:76-83 | the budget is as many characters as fit at 6.6 pixels each when 10 are left free, and at least 4 |
| `LabelByChars.ClampSays` | frontend/src/features/live-trace/terrain-map.tsx:109-116 | more than two lines are shown as the first and the front of the second with an ellipsis |
| `AnsiByChars.SequenceIs` | frontend/src/features/replay/event-card.tsx:97 | a control sequence is an escape character, a bracket, digits, `;` or `?`, then characters from space to `/`, then one from `@` to `~` |
| `AnsiByChars.StyleSequenceIs` | frontend/src/features/replay/syntax.tsx:220-221 | a sequence that sets the style is digits and semicolons up to an `m` |
| `AnsiByChars.MatchesAre` | frontend/src/features/replay/syntax.tsx:254-258 | the matches are sequences, and no other sequence starts outside them |
| `AnsiByChars.ParamsRead` | frontend/src/features/replay/syntax.tsx:260 | parameters are read as the decimal numbers they write, no text as a single zero |
| `AnsiByChars.ParamSays` | frontend/src/features/replay/syntax.tsx:261-274 | what each parameter does to weight and colour, by its number |
| `AnsiByChars.RenderSays` | frontend/src/features/replay/syntax.tsx:228-234 | a text is coloured if and only if it holds an introducer and at most 60000 units, and is shown stripped otherwise |
| `QuoteByChars.QuotedSays` | frontend/src/features/agents/register-agent-page.tsx:30-34 | a value of letters, digits and ten marks stays as it is; any other is put in single quotes, each of its own quotes closed, quoted and opened again |
| `KeyByDigits.XorBits` | frontend/src/features/results/queries.ts:159 | the exclusive or takes the binary digits one by one |
| `KeyByDigits.HashSays` | frontend/src/features/results/queries.ts:155-164 | the hash starts at 2166136261; each unit is mixed in and the word multiplied by 16777619 modulo 4294967296 |
| `KeyByDigits.KeySays` | frontend/src/features/results/queries.ts:154-165 | the key is the count, a colon and the hash of the sorted ids |
| `KeyByDigits.Print36Says` | frontend/src/features/results/queries.ts:165 | the hash is written in base 36, digits before letters |
| `Toasts.ToastStore.constructor` | frontend/src/stores/toasts.ts:28-39 | the store starts empty |
| `Toasts.ToastStore.Push` | frontend/src/stores/toasts.ts:40-48 | a push appends the toast and schedules its auto-dismiss |
| `Toasts.ToastStore.Dismiss` | frontend/src/stores/toasts.ts:49-71 | a dismiss replaces the timer and marks the toast, and leaves unknown and leaving toasts alone |
| `Toasts.ToastStore.Fire` | frontend/src/stores/toasts.ts:66-69 | a timer that comes due runs its callback |
| `Toasts.FireIsDismiss` | frontend/src/stores/toasts.ts:45 | letting the auto-dismiss timer fire is dismissing |
| `Toasts.RunKeeps` | frontend/src/stores/toasts.ts:38-72 | every step keeps the invariant: each toast has exactly one pending timer, of the right phase, and each timer a toast |
| `Toasts.ReachableIsTimed` | frontend/src/stores/toasts.ts:38-72 | so every reachable state satisfies it |
| `Toasts.GoneInTime` | frontend/src/stores/toasts.ts:20-72 | whatever happens after a push, the toast is gone once 7200 ms have passed |
| `Toasts.StaysUp` | frontend/src/stores/toasts.ts:20-46 | unless it is dismissed it is up for 7000 ms |
| `Toasts.TimeGoesOn` | frontend/src/stores/toasts.ts:28-72 | from every state that satisfies the invariant, timers on time let the clock reach any later time |
| `Toasts.GoesAway` | frontend/src/stores/toasts.ts:20-72 | so after any push time and timers alone take the toast off |
| `ToastsByClock.PushSays` | frontend/src/stores/toasts.ts:40-48 | a push adds one toast at the end, and one timer that dismisses it after 7000 ms |
| `ToastsByClock.DismissSays` | frontend/src/stores/toasts.ts:49-71 | a dismiss marks the toast as leaving, clears its timer and sets one that removes it after 200 ms |
| `ToastsByClock.RemoveSays` | frontend/src/stores/toasts.ts:64-70 | the removing timer takes away the toasts of its id and no others |
| `ToastsByClock.LifeSays` | frontend/src/stores/toasts.ts:20-72 | a toast pushed at any point of any run is gone more than 7200 ms later, and up for 7000 ms unless it is dismissed |

## Left out

- React components, effects, styles and SVG drawing: no hard property. `AnnounceTree.Render` stops at the token tree.
- TanStack Query, zustand, `fetch` and browser storage: pages, clocks and timers are steps of the model.
- General regular expressions: every pattern is a direct recogniser; `SHELL_RE` and `JSON_RE` only colour text.
- The `detail` of an announcement refusal: it is for people and never compared.
- `withModel`: the replacement text of `String.prototype.replace` gives `$` a meaning, so no clean claim holds.
- `toLowerCase` in `closestKind`: the typed kind is taken as already lowered.
- The debug filter, `KIND_META`, the unclassified count, tooltips, facet filters, tick labels and zoom: one branch each.
- The meta field of `use-run-events` and its polling interval: passed through unchanged.
- Numerals beyond the range of a double: `foldIndexForEvent` and SGR parameters are read as exact integers.
- The Python validator and the admin console: they are not part of this model, so agreement with them is not claimed.
- Toasts.GoneInTime: assumes timers on time; a browser may fire them late.
- ShellQuote.QuotedIsOneWord: models quoting and word splitting only; an unquoted character with any other meaning to the shell makes the reading fail rather than expand.
- ShellQuote.LineRoundTrip: reads words only; as the first of a line a value like `A=b` is an assignment (`ShellQuote.AssignmentShows`), and reserved words and aliases are not modelled.
- HarnessMatch.MatchingIsSymmetric: goes one way only; unlike choices can add up to the same number by chance.
- AnnouncePatterns.OrderedIs: takes from the class Nd that it holds neither the dot nor the parenthesis.
