# Proofs about the message view, the card cache, crash recovery and the test doubles

This Dafny project models ten parts of the repository whose behaviour is computation over sequences and maps or an
interleaving of steps, and proves what they are for. `dafny verify dfyconfig.toml` checks all of it.

| part | source | modules |
|---|---|---|
| lines, blank text, stable sort, sequences | shared | `Options`, `Seqs`, `Text`, `Sorting`, `Subsequence` |
| Markdown blocks | `web/lib/markdown.tsx` | `Blocks`, `BlocksStreaming`, `BlocksInk`, `BlocksShape`, `BlocksOrder`, `BlocksDocument` |
| Markdown inline | `web/lib/markdown.tsx` | `Inline`, `InlineInk`, `InlineShape`, `InlineMarks`, `InlineDocument`, `InlineText` |
| mentions on screen and on the wire | `web/lib/mentions.ts` | `Mentions`, `MentionsWire`, `MentionsRoundTrip` |
| conversation and folded work | `web/lib/message-layers.ts` | `Layers`, `LayersProps`, `LayersLines`, `LayersHead`, `LayersCut` |
| task cards, board and tree | `web/lib/cards.ts` | `Cards`, `CardRuns`, `CardBoards`, `BoardTree`, `BoardTreeProps` |
| crash recovery of writers | `daemon/worktreesim/worktreesim.go`, `daemon/internal/orphan/orphan.go` | `Worktree`, `WorktreeSafety`, `WorktreeClaims`, `WorkFile`, `WorkRaces`, `WorkCounts` |
| the fake clock | `contracts/clock/clock.go` | `Clock`, `ClockSafety`, `FakeClock` |
| activity rail and liveness | `web/components/ActivityRail.tsx`, `web/lib/feed.ts` | `Events`, `Rail`, `RailProps`, `Feed` |
| completion conditions | `web/lib/completion.ts` | `Completion` |
| the scripted agent | `daemon/acpfake/acpfake.go` | `Agent`, `AgentTurns`, `AgentEnds`, `AgentSleeps`, `AgentAnswers`, `AgentServer` |

How the model is built:

- Code that loops is a method with a loop, and code that changes an object is a class with those fields. Each such
  method is proved against a function of its inputs or of the state before, and the properties are proved about that
  function. Code made of expressions is functions.
- The three concurrent parts (writers and daemon, clock, agent) are state machines over the accesses that other
  goroutines or a crash can come between. A run is any sequence of enabled steps; the invariants and theorems hold for
  every run. The classes carry the steps they took as ghost state, so each of their methods is itself proved to be a
  run: `Valid()` says that the present state is reached by it.
- The line patterns of Markdown are one record, `Blocks.Grammar`, with a field for each pattern and the few facts about
  them that the proofs need (`Blocks.Lawful`: a quote mark takes at least one character away, captured text is part of
  the line, a heading has one to six marks). All block theorems hold for every such record. The link, mention and
  address patterns are written out character by character, and `Mentions.RawIsMatched` and `Mentions.MatchIsRaw` prove
  that they accept exactly the links that can be written.
- Text is a sequence of characters, each of which stands for one UTF-16 code unit. Dafny's `char` has no surrogates, so
  characters outside the basic plane, and a cut inside of one, are not represented. White space is the class that
  `trim` removes. The count of code points that decides about folding is a parameter `points`; the theorems hold for
  every such count.

Where the code does less than its documentation says or a reader would expect, the model follows the code:

- `NAME_END` (`web/lib/mentions.ts:79`) is unanchored and has the alternative of the end of the text, so its test holds
  for every string: a name is replaced even inside a longer word, and `MentionsWire.LongestNameWins` speaks of known
  names only.
- The comment on `latestEvents` (`web/components/ActivityRail.tsx:67`) promises the order of `seq`. The rows are in the
  order of their first events; `RailProps.LatestInOrderIff` says for which events the promise holds and
  `RailProps.EnclosedCallIsOutOfOrder` gives three for which it does not.
- A conversation is said to hold no start of a code block. No line of the message that goes into it is one
  (`LayersProps.ConversationHasNoStructure`), but the first line is trimmed and the last one cut off, and either can
  become one: `LayersLines.ConversationStartsIff` says exactly when.
- Text that is sent and shown again is meant to be what was written. `MentionsRoundTrip.RoundTripIff` gives the exact
  condition: a `[@` that names nobody must not have a replaced name behind it before the next `]`
  (`MentionsRoundTrip.LeftoverOpeningBreaksRoundTrip` is a text that has).
- The blocks of a text are meant to show it in order. A lazy line behind a child item moves in front of that item;
  `BlocksOrder.OrderIsKept` and `BlocksOrder.OrderIsLost` say that nothing else does, `BlocksShape.LazyLineMovesAhead`
  gives a list.
- The work file is said to hold each edit exactly once. A marker is appended twice exactly when two writers look for it
  before either acts (`WorkRaces.DoubleAppendIff`). `MarkerCount` counts markers as parts of the text, so it also
  needs that no marker holds another (`WorkCounts.EveryOrderCountsOneIff`).
- Recovery is said to leave no second writer. That is so when no kill falls between a spawn and its record
  (`WorktreeSafety.KillThenClaimIsSafe`). A claim opens its gate before it records
  (`daemon/worktreesim/worktreesim.go:526` and 530), so one that is cut off in between escapes the next sweep
  (`WorktreeSafety.CutClaimIsMissed`). `WorktreeSafety.ClaimPhaseDoublesIff` gives the exact condition for all runs.
- The stored state of a card is meant never to go back. A response to the viewer's own call is not compared with the
  cache; `CardRuns.KeysNeverDecreaseIff` says that nothing else can set it back.
- Other steps than permission requests are said to stop after a cancel. A step that hangs and has a permission request
  as well is started, and may sleep on: `AgentSleeps.SleepsIff` says exactly which steps may.
- A cancel is said to end a turn. The reader takes a message off the input before it looks for room, so 18 requests
  or 17 answers in front of a cancel stop it for good (`AgentEnds.RequestsBlockTheReader`,
  `AgentEnds.AnswersBlockTheReader`). `AgentEnds.TurnCanEndIff` says exactly which turns can still end, and
  `AgentEnds.EveryTurnCanEnd` what a client has to keep to.

## Model

| member | source | states |
|---|---|---|
| `Blocks.SplitRow` | web/lib/markdown.tsx:58-72 | The character loop over a table row gives the cells that the recursive reading of the row defines, for every line. |
| `Blocks.ReadFence` | web/lib/markdown.tsx:88-101 | The loop over a code block stops at the first closing fence of the same mark and at least the same length; without one the rest of the text is code and the block is open. |
| `Blocks.ReadQuote` | web/lib/markdown.tsx:113-121 | The loop takes the quoted lines and the plain lines that lazily continue them, with their marks removed, up to the first line that does neither. |
| `Blocks.ReadRows` | web/lib/markdown.tsx:134-145 | The data rows are the lines up to the first blank one or one without a pipe, each padded or cut to the width of the head. |
| `Blocks.PadRow` | web/lib/markdown.tsx:140-141 | The padding loop gives exactly as many cells as the head: missing ones are empty, extra ones are dropped. |
| `Blocks.ReadPara` | web/lib/markdown.tsx:149-157 | A paragraph takes its first line and all lines up to a blank one or the start of another block, table look-ahead included. |
| `Blocks.ParseList` | web/lib/markdown.tsx:167-211 | The list read from any line of a text is the one read from that line's suffix alone: what stands in front has no influence. |
| `Blocks.FirstShrinks` | web/lib/markdown.tsx:79-124 | Why the parser ends although a quote is parsed again: a quote hands on strictly fewer characters than it took, every other block takes at least one line. |
| `Blocks.TakeBlock` | web/lib/markdown.tsx:83-158 | One round of the main loop gives the first block of the remaining lines and the number of lines it takes, whichever of the eight kinds it is. |
| `Blocks.ParseBlocks` | web/lib/markdown.tsx:79-160 | The whole loop, quotes re-parsed from joined text included, gives the blocks that the definition by first block and remaining lines gives. |
| `Text.LinesOfJoin` | web/lib/markdown.tsx:80-122 | Joining the lines of a quote with newlines and splitting them again gives the same lines. |
| `Text.BreakEndsLine` | web/lib/markdown.tsx:80-80 | A line ends at a newline, a carriage return or both together, which are one break. |
| `Text.DeltaKeepsEndedLines` | web/lib/markdown.tsx:80-80 | Text that is appended never changes a line that had already ended, even when a carriage return and its newline arrive apart. |
| `BlocksStreaming.RunEndIsStable` | web/lib/markdown.tsx:94-157 | A code block, quote, table or paragraph that ended inside the text ends there whatever is appended. |
| `BlocksStreaming.ListFromIsStable` | web/lib/markdown.tsx:173-209 | A list with text behind it ends where it ended whatever is appended, although it looks one line past blank lines. |
| `BlocksStreaming.FirstIsStable` | web/lib/markdown.tsx:83-158 | The first block is settled as soon as any text stands behind it. |
| `BlocksStreaming.StreamingIsStable` | web/lib/markdown.tsx:79-211 | For all lines and all lines appended to them, every top-level block but the last is an unchanged prefix of the new answer. |
| `BlocksStreaming.ParsingResumesAtTheTail` | web/lib/markdown.tsx:79-211 | The new answer is the settled blocks followed by what parsing gives from the first line of the last block on. |
| `BlocksStreaming.DeltaKeepsSettledBlocks` | web/lib/markdown.tsx:79-211 | The same for text cut at any character: the settled blocks of the ended lines are a prefix of the blocks before and after the delta. |
| `BlocksInk.BlocksInventNothing` | web/lib/markdown.tsx:79-211 | The non-blank characters of all blocks, at any depth, are a sub-multiset of those of the text: nothing is invented or shown twice. |
| `BlocksInk.CellsMass` | web/lib/markdown.tsx:58-72 | Splitting a row into cells carries over no character that is not in the row. |
| `BlocksInk.ListFromMass` | web/lib/markdown.tsx:167-211 | The items and children of a list carry no character more often than the lines it took. |
| `BlocksShape.BlocksAreShaped` | web/lib/markdown.tsx:79-211 | Headings have level one to three, table rows are as wide as their head, lists are not empty and nest once, and an open code block can only be the last top-level block. |
| `BlocksShape.OpenCodeTakesAll` | web/lib/markdown.tsx:88-102 | A fence that is never closed takes all lines that are left. |
| `BlocksShape.RowRoundTrip` | web/lib/markdown.tsx:58-72 | Cells without backslashes and outer blanks, pipes written as backslash-pipe, come back from a written row, empty cells included. |
| `BlocksOrder.OrderIsKept` | web/lib/markdown.tsx:79-211 | A text without a lazy line directly behind a child item with text is shown in its own order: the non-blank characters of all blocks, at any depth, are a subsequence of those of the text. |
| `BlocksOrder.OrderIsLost` | web/lib/markdown.tsx:79-211 | With such a line, in a quote at any depth or not, two characters of the text are shown the other way round. |
| `BlocksOrder.OrderIsKeptIff` | web/lib/markdown.tsx:206-208 | Where visible characters can be told apart, the blocks keep the order if and only if no line of the text jumps ahead of a child item. |
| `BlocksDocument.DocumentIsRead` | web/lib/markdown.tsx:79-211 | Reading back: a document written block by block, in any order and with or without blank lines between, is read as exactly those blocks. Paragraphs keep all their lines, headings their level of at most three, code its text and whether it is open; lists have their items, continued and lazily continued texts, children, blank lines and both kinds of numbering, tables their cells at the width of the head, quotes what stands in them to any depth, and a line that is rule and item is a rule. |
| `BlocksDocument.DocumentTextIsRead` | web/lib/markdown.tsx:79-211 | The same from the text of the document to its blocks. |
| `Mentions.RawIsMatched` | web/lib/mentions.ts:24-29 | Every link that can be written is read back as its target with its full length, whatever follows it. |
| `Mentions.MatchIsRaw` | web/lib/mentions.ts:24-29 | What the link pattern accepts at a place is exactly the text of the link to the target it captures. |
| `Mentions.LinkLooksLike` | web/lib/mentions.ts:24-29 | The text of a link to a target, letter by letter, and the one to everybody. |
| `Mentions.TokensUpToMatch` | web/lib/mentions.ts:35-59 | The leftmost non-overlapping matches cut a text into plain characters and links, with nothing overlooked in between. |
| `Mentions.ExtractMentions` | web/lib/mentions.ts:32-43 | The loop with its set of seen keys gives the targets of all links in order, each key at its first place only. |
| `Mentions.KeyIsInjective` | web/lib/mentions.ts:37-37 | Two targets share a key only if kind and id agree: the colon cannot be shifted between the two. |
| `Mentions.EachKeyOnce` | web/lib/mentions.ts:32-43 | No target is listed twice, none is left out and none is added. |
| `Mentions.SplitContent` | web/lib/mentions.ts:51-63 | The loop gives the links and between them the longest runs of text. |
| `Mentions.SplitLosesNothing` | web/lib/mentions.ts:51-63 | Writing the parts out again gives the content; no text part is empty and no two stand side by side. |
| `MentionsWire.ReplaceDisplay` | web/lib/mentions.ts:102-118 | The character loop gives what the definition by the `@` at each place gives. |
| `MentionsWire.ToWire` | web/lib/mentions.ts:85-100 | The loop over existing links replaces the names in every piece between them and keeps the links themselves. |
| `MentionsWire.LongestNameWins` | web/lib/mentions.ts:86-107 | An `@` at the start or behind white space or an opening bracket stands for a longest known name that fits, for nothing exactly when none fits, and anywhere else for nothing. |
| `MentionsRoundTrip.TokensOfReplaced` | web/lib/mentions.ts:102-118 | A replaced piece that is not trapped is read back as exactly the links that were written and the characters between them, whatever follows. |
| `MentionsRoundTrip.RoundTripIff` | web/lib/mentions.ts:85-123 | Showing a sent text again shows what was written if and only if no `[@` that names nobody has a replaced name behind it, in the same piece between links and before any `]`. |
| `MentionsRoundTrip.RoundTrip` | web/lib/mentions.ts:85-123 | In particular when every `[@` of the text belongs to a link. |
| `MentionsRoundTrip.PlainRoundTrip` | web/lib/mentions.ts:85-123 | For text without `[@` and targets whose link says their name, the display of the wire text is the text. |
| `MentionsRoundTrip.SentMentions` | web/lib/mentions.ts:32-100 | Under the same condition the targets found in a sent text are exactly the resolved names and the links it had, in order. |
| `Inline.FindClose` | web/lib/markdown.tsx:231-239 | The search loop finds the first closing mark that is neither directly behind the opening one nor behind white space. |
| `Inline.ReadCode` | web/lib/markdown.tsx:254-266 | A run of backticks closes at the next run of that length, or stays text as a whole. |
| `InlineMarks.FirstCloseIff` | web/lib/markdown.tsx:231-239 | The closing mark at a place is the one found if and only if it is neither directly behind the opening one nor behind white space and no earlier one is such. |
| `InlineMarks.MarkedTextIsRead` | web/lib/markdown.tsx:282-315 | Text between a pair of any of the five marks is read as strong, emphasised or struck out around whatever its inside is read as on its own, as long as the mark's own character does not occur inside. |
| `InlineMarks.MarkedWordsAreRead` | web/lib/markdown.tsx:282-315 | Plain words between such marks in particular; underscores count only at the edges of a word and are else shown as they are. |
| `InlineMarks.IdentifiersStay` | web/lib/markdown.tsx:293-305 | A text in which every mark is an underscore inside a word is shown as it is, however many there are. |
| `Inline.StepMoves` | web/lib/markdown.tsx:247-318 | Each round moves forward inside the text and hands on a strictly shorter slice: the recursion ends. |
| `Inline.ParseInline` | web/lib/markdown.tsx:241-322 | The loop with its buffer and its recursive calls on slices gives the nodes that the definition by steps gives. |
| `InlineInk.InlineInventsNothing` | web/lib/markdown.tsx:241-322 | The non-blank characters of all nodes, at any depth, are a subsequence of those of the text: once and in order. |
| `InlineShape.InlineIsTidy` | web/lib/markdown.tsx:225-322 | At any depth links lead to http or https only, mentions are well formed, and no text is empty or split in two. |
| `InlineShape.EscapingRoundTrip` | web/lib/markdown.tsx:250-250 | A line with a backslash in front of everything escapable is shown as it was, whatever marks it holds. |
| `InlineShape.RendererAgreesWithSplit` | web/lib/markdown.tsx:241-322 | Where only mentions can be recognised, the inline parser shows exactly the parts that `splitContent` finds: the two grammars are one. |
| `InlineDocument.TextIsRead` | web/lib/markdown.tsx:241-322 | Reading back: a text written span by span is read as exactly those spans: words with everything escapable escaped, line breaks, code in any number of backticks, mentions, links with their address and what is said in them, and the five marks around anything, inside each other too. |
| `InlineDocument.SpansAreRead` | web/lib/markdown.tsx:247-320 | The same in the middle of a text, with words already in the buffer: what stands in front is not read again and decides nothing but the edge of a word. |
| `InlineDocument.TickedIsRead` | web/lib/markdown.tsx:254-266 | A code span anywhere in a text holds what stands between its backticks, with spaces for newlines, trimmed. |
| `InlineDocument.LinkedIsRead` | web/lib/markdown.tsx:268-281 | A link with an http or https address, whatever follows, is an anchor with this address around the reading of its text. |
| `InlineText.NothingIsRead` | web/lib/markdown.tsx:241-322 | And nothing else is read: a text in which no escape, link, code or closed mark begins is shown as it is, among it marks with a blank behind them or never closed, links to other addresses, and backticks without an end. |
| `InlineText.SafeHrefIff` | web/lib/markdown.tsx:228-228 | The addresses that a link may have: `http://` or `https://`, in any case, and at least one more character, none of them a blank, an angle bracket or a quote. |
| `InlineText.EscapableIff` | web/lib/markdown.tsx:250-250 | The characters that a backslash escapes, one by one. |
| `Layers.CutHead` | web/lib/message-layers.ts:64-89 | The two match loops give the last sentence end that leaves enough text, or the last space, pulled back in front of links. |
| `Layers.Para` | web/lib/message-layers.ts:115-119 | The loop finds the end of the paragraph, a table or fence included as an end. |
| `Layers.FindHeadEnd` | web/lib/message-layers.ts:120-126 | A lone heading takes the next paragraph along, unless that is a table or a fence. |
| `Layers.CountKept` | web/lib/message-layers.ts:129-139 | The counting loop stops in front of the sixth line with text. |
| `Layers.SplitAuto` | web/lib/message-layers.ts:107-146 | All loops together give the split that the definition gives, or none in the three cases in which there is none. |
| `LayersProps.CutIsClean` | web/lib/message-layers.ts:64-89 | No link of the text straddles the cut, and a cut without an ellipsis stands behind the end of a sentence or line. |
| `LayersProps.PulledBackIsClean` | web/lib/message-layers.ts:79-86 | Pulling a cut back over ordered links one after the other leaves it inside none of them, although each pull could enter another. |
| `LayersProps.LastSentenceIsTaken` | web/lib/message-layers.ts:66-72 | Of all sentence ends in the window that leave enough text the last one is taken. |
| `LayersProps.SplitLosesNothing` | web/lib/message-layers.ts:107-146 | The non-blank characters of conversation and rest, end to end, are those of the message, but for one ellipsis between the two; the rest is never empty. |
| `LayersProps.ConversationIsShort` | web/lib/message-layers.ts:107-146 | The conversation has at most five lines with text and at most 401 characters. |
| `LayersProps.ConversationHasNoStructure` | web/lib/message-layers.ts:92-139 | No line of the message that goes into the conversation starts a table or a code block. |
| `LayersLines.ConversationStartsIff` | web/lib/message-layers.ts:64-146 | The lines of the conversation, read off the message: the kept lines in front of the cut, the first trimmed, the last with text trimmed and marked when the cut is no sentence end, those between unchanged. A table or code block starts in them if and only if one starts with that first or that last line. |
| `LayersLines.TrimmedLineMayBecomeAFence` | web/lib/message-layers.ts:142-142 | It can: a message of 27 lines whose indented first line is a fence once it is trimmed. |
| `LayersLines.CutLineMayBecomeAFence` | web/lib/message-layers.ts:64-89 | And one whose first line is a fence once it is cut behind a sentence. |
| `LayersLines.SplitCutsNoLink` | web/lib/message-layers.ts:64-146 | In every split there is one place at which the head is cut, no link of the head lies across it, the conversation is what stands in front of it and the rest begins behind it. |
| `LayersHead.HeadEndIff` | web/lib/message-layers.ts:112-126 | The head that the code finds is, and no other, the first paragraph; with a lone heading it is the next paragraph as well, blank lines between, unless a table or a code block comes first or nothing. |
| `LayersHead.KeptToIs` | web/lib/message-layers.ts:129-139 | Of the head all lines are kept, or those in front of its sixth line with text. |
| `LayersHead.ShortHeadIsShown` | web/lib/message-layers.ts:107-146 | A head of at most five lines with text and 400 characters is the conversation, and everything behind it the work; without text behind it there is no split. |
| `LayersHead.StructuredFirstIsFolded` | web/lib/message-layers.ts:107-112 | A long message that begins with a table or a code block is all work. |
| `LayersHead.NothingToFold` | web/lib/message-layers.ts:107-110 | A message of at most 1200 code points and 25 lines, or a blank one, is not split. |
| `LayersCut.LinksAreFound` | web/lib/message-layers.ts:79-86 | The links that a cut must not cross are, one after the other, the leftmost one behind the last, and none is overlooked. |
| `LayersCut.CutIs` | web/lib/message-layers.ts:64-89 | A text of more than 400 characters is cut behind its last sentence or line end in the window that leaves 80, else at the last space that does, else at 400, or in front of the link that this would cut in two; the ellipsis stands exactly where no sentence or line ends. |
| `LayersCut.IndentIs` | web/lib/message-layers.ts:87-89 | What goes over to the work loses the blanks and tabs in front and nothing else. |
| `CardRuns.KeysNeverDecreaseIff` | web/lib/cards.ts:107-146 | Along a run the stored version and time of a card never go down, between any two moments, if and only if no response to the viewer's own call is older than the cache when it arrives. |
| `CardRuns.RunKeepsNewest` | web/lib/cards.ts:115-146 | After any deliveries the cached card is one that was delivered and none that was delivered is newer. |
| `CardRuns.RunsConverge` | web/lib/cards.ts:105-146 | Two runs over the same states, in any order, over any channel and with any repeats, end with the same card contents, when equal version and time mean equal state and own responses are not outdated. |
| `CardRuns.BroadcastFiltersActions` | web/lib/cards.ts:142-143 | A broadcast that is taken keeps exactly the known actions that fit the new status, accepting a submitted result and revising a submitted or accepted one, and adds none. |
| `CardRuns.OffersAreGranted` | web/lib/cards.ts:128-145 | No permission is invented: an action is only offered after a trusted delivery offered it, and a card whose actions were never confirmed offers none. |
| `CardRuns.RunKeepsListsClean` | web/lib/cards.ts:133-145 | Along every run the past versions of every card are listed once and lie strictly below the current one. |
| `CardRuns.NoVersionIsLost` | web/lib/cards.ts:50-146 | Every version that was ever current can still be shown at the end of the run. |
| `CardRuns.PushedOutIsKept` | web/lib/cards.ts:134-141 | The version that a broadcast pushes out is readable afterwards, every field as the card had it, as a past version without a status. |
| `CardRuns.PushedOutVersionsKeepTheirFields` | web/lib/cards.ts:50-146 | It keeps those fields, named one by one, to the end of the run, as long as later fetched lists agree with it. |
| `CardRuns.VersionsShown` | web/lib/cards.ts:50-69 | What a card shows of each version, field by field: the current one with its status, a listed one with the fields that are listed and none of the current ones, and nothing of a version that is not listed. |
| `CardRuns.BubbleNeeds` | web/lib/cards.ts:71-83 | What a bubble asks for: the card while its version is not known, the result for a result bubble without one, the actions only of the current version while a person could judge it and nobody trusted has said. |
| `CardRuns.DeliveriesAreShown` | web/lib/cards.ts:105-146 | What a delivery shows, field by field: nothing new when it is behind the cache or a broadcast that repeats it, otherwise the card as delivered with the versions it lists, its actions only from a fetch or a response; other cards stay. |
| `CardRuns.BroadcastLeavesActionsOpen` | web/lib/cards.ts:71-146 | A card known from broadcasts alone asks for its actions exactly when some judgement would fit its status. |
| `CardBoards.BoardAgreesWithRecount` | web/lib/cards.ts:149-166 | Folding any cards into the board gives one row per card of the mission, by number, with the fields of its last state, the last cost and message that were known, met criteria and pending cards as numbers of places, and the right total. |
| `CardBoards.OnCardTwice` | web/lib/cards.ts:159-166 | The same card again changes nothing. |
| `CardBoards.OnCardsCommute` | web/lib/cards.ts:159-166 | Two cards with different ids and numbers may arrive in either order. |
| `BoardTree.Group` | web/lib/cards.ts:170-176 | The loop over the sorted rows splits them into top rows and the children of each parent; a missing or own parent means top. |
| `BoardTree.WalkAll` | web/lib/cards.ts:179-185 | The recursive walk with its shared set of seen cards adds what the definition of a depth-first visit adds, and ends on any parent relation, circles included. |
| `BoardTree.BuildTree` | web/lib/cards.ts:169-187 | The whole method gives the tree of the definition. |
| `BoardTreeProps.TreeShowsNothingTwice` | web/lib/cards.ts:169-187 | Whatever the rows say about their parents, only given rows are shown and none twice. |
| `BoardTreeProps.ParentIs` | web/lib/cards.ts:170-176 | A card is shown under the one it names when that is on the board and not itself, otherwise on top. |
| `BoardTreeProps.TreeShowsTheRooted` | web/lib/cards.ts:169-187 | With distinct ids a row is shown if and only if its chain of parents ends: exactly the rows on or under a circle are missing. |
| `BoardTreeProps.TreeIsNested` | web/lib/cards.ts:179-185 | Top rows have depth zero, every other row stands one step further in behind its parent with nothing between them that is not inside the parent. |
| `BoardTreeProps.TreeKeepsSiblings` | web/lib/cards.ts:173-185 | Rows with the same parent, and the top rows, stand by number. |
| `Worktree.Harness.FindLive` | daemon/worktreesim/worktreesim.go:470-480 | The loop from the end finds the newest live writer of a checkout, or none lives there. |
| `WorktreeClaims.LiveWriterIsNewest` | daemon/worktreesim/worktreesim.go:470-480 | It is the newest of the live ones: everybody started in the checkout after it is dead. |
| `Worktree.Harness.StartAttempt` | daemon/worktreesim/worktreesim.go:187-227 | Any attempt of any task: spawn, record, gate and lane in this order; the first attempt of a new task is four steps of the machine between which the daemon can die. |
| `Worktree.Harness.KillDaemon` | daemon/worktreesim/worktreesim.go:328-342 | Disk and processes stay as they are; the answer names a live group exactly when there is one. |
| `Worktree.Harness.RequeueTask` | daemon/worktreesim/worktreesim.go:348-364 | The lane moves to its next attempt and the token of the one before is revoked; an unknown task changes nothing. |
| `Worktree.Harness.ClaimOne` | daemon/worktreesim/worktreesim.go:515-535 | One lane of the claim is skipped, or spawned, let through its gate and only then recorded. |
| `Worktree.Harness.Restart` | daemon/worktreesim/worktreesim.go:488-539 | For every order of the lanes: the sweep first, then the claims, as a run of the machine. |
| `WorktreeClaims.SweepCountsItsKills` | daemon/internal/orphan/orphan.go:119-135 | In every run the number that the sweep reports is by how many groups fewer live afterwards; no recorded group lives, and no record is left. |
| `WorktreeClaims.ClaimsOnePerCheckout` | daemon/worktreesim/worktreesim.go:515-535 | In every order of the lanes: of the requeued lanes of a checkout that nobody lives in the first gets one new writer, with its own token, through its gate and recorded; every other checkout stays as it was. |
| `WorktreeClaims.SweptGroupsAreStarted` | daemon/worktreesim/worktreesim.go:488-515 | Every run leads only to worlds that this is about. |
| `Worktree.Harness.RestartClaimFirst` | daemon/worktreesim/worktreesim.go:545-582 | The injected regression: claims without a look at who lives there and without records, then the sweep. |
| `WorktreeSafety.CtkIsInjective` | daemon/worktreesim/worktreesim.go:299-299 | No two attempts share a token, underscores in task names included. |
| `WorktreeSafety.EveryRunKeepsInv` | daemon/worktreesim/worktreesim.go:187-539 | Along every interleaving of starts, requeues, restarts, deaths and crashes: writers, groups, records, tokens and lanes fit together, and the revoked tokens are exactly those of outdated attempts. |
| `WorktreeSafety.ClaimPhaseIsExclusive` | daemon/worktreesim/worktreesim.go:488-539 | Two writers live in one checkout during a claim phase only if both were cut off from their records by crashes and survived the sweep. |
| `WorktreeSafety.KillThenClaimIsSafe` | daemon/worktreesim/worktreesim.go:328-539 | However often the daemon is killed, requeued and restarted, as long as no kill falls between a spawn and its record, no claim phase ever has two live writers in a checkout, whatever the order of the lanes and however many share it. |
| `WorktreeSafety.EveryWriterIsRecorded` | daemon/worktreesim/worktreesim.go:187-539 | With such kills every live writer has its record on disk, but for the one just being started or claimed. |
| `WorktreeSafety.KilledAndRequeuedIsClean` | daemon/worktreesim/worktreesim.go:187-364 | The run of a first attempt, a kill, a requeue and a restart is such a run and reaches the claim of the second attempt. |
| `WorktreeSafety.ClaimPhaseDoublesIff` | daemon/worktreesim/worktreesim.go:488-539 | For every run, kills of any kind included: some moment of a claim phase has two live writers in a checkout if and only if two writers without a record live there when it begins. |
| `WorktreeSafety.SurvivorsShowAtOnce` | daemon/worktreesim/worktreesim.go:488-535 | Right behind the sweep a checkout has two live writers if and only if two lived there without a record. |
| `WorktreeSafety.SurvivesSweep` | daemon/internal/orphan/orphan.go:119-135 | A writer survives the sweep if and only if it lives and has no record. |
| `WorktreeSafety.WorkIsRecorded` | daemon/worktreesim/worktreesim.go:204-215 | A first attempt never works without a record: only an unfinished or cut-off claim can. |
| `WorktreeSafety.CutClaimIsMissed` | daemon/worktreesim/worktreesim.go:522-535 | A claim cut off between gate and record leaves a writer at work that the next sweep does not find. |
| `WorktreeSafety.StaleWritersAreRefused` | daemon/worktreesim/worktreesim.go:152-162 | In every run a writer's post is refused if and only if its lane has moved on to a later attempt. |
| `WorktreeSafety.CurrentTokenIsGood` | daemon/worktreesim/worktreesim.go:348-364 | The token of a lane's current attempt is never a revoked one. |
| `WorktreeSafety.ExclusiveStartsStaySafe` | daemon/worktreesim/worktreesim.go:187-539 | If first attempts start only in checkouts nobody lives in, no checkout has two live writers at any time, crashes included. |
| `WorktreeSafety.ClaimFirstIsCaught` | daemon/worktreesim/worktreesim.go:545-582 | Claiming first puts a second live writer into every requeued checkout somebody still lives in, in every order of the lanes. |
| `WorkFile.FileOnlyGrows` | daemon/worktreesim/worktreesim.go:259-286 | Under any interleaving of any writers, kills included, the file is the old one with whole lines appended and the reported bytes add up to its growth. |
| `WorkFile.FileNeverShrinks` | daemon/worktreesim/worktreesim.go:259-286 | Between any two moments of a run the earlier content is a prefix of the later one. |
| `WorkFile.HandledStays` | daemon/worktreesim/worktreesim.go:274-280 | Every marker that was answered for is in the file, and asking any writer for it again is answered without a change. |
| `WorkFile.EditsAreExactlyOnce` | daemon/worktreesim/worktreesim.go:259-286 | While no two writers are between their grep and its consequence, no marker is appended twice nor one that was there, over any hand-over between writers. |
| `WorkRaces.DoubleAppendIff` | daemon/worktreesim/worktreesim.go:259-286 | In every run, kills included, a marker is appended twice if and only if at some moment two writers have both found it missing and both go on to act. |
| `WorkFile.RacersWriteTwice` | daemon/worktreesim/worktreesim.go:401-430 | Such a run exists: two writers that both grep before either appends both append. |
| `WorkCounts.CountsOneIff` | daemon/worktreesim/worktreesim.go:658-664 | In every run, races included: the marker count is the count over the appended lines, and it is one if and only if one of these lines holds the marker once and no other holds it. |
| `WorkCounts.ServedCountsOneIff` | daemon/worktreesim/worktreesim.go:658-664 | For commands dispatched one after the other: a marker is counted once if and only if one of the kept markers holds it once and no other does. |
| `WorkCounts.EveryOrderCountsOneIff` | daemon/worktreesim/worktreesim.go:658-664 | A set of markers is counted once each in every order of dispatch, repeats included, if and only if none of them holds another. |
| `WorkCounts.MarkersCountOne` | daemon/worktreesim/worktreesim.go:658-664 | While nobody races and no other appended marker holds it, every marker that was answered for is counted once. |
| `WorkCounts.PartOfAMarkerMiscounts` | daemon/worktreesim/worktreesim.go:658-664 | A marker inside another one can be answered for without being written, and counted twice. |
| `WorkCounts.PartMayCountOne` | daemon/worktreesim/worktreesim.go:658-664 | In one given order it may also be counted once, so the condition has to speak of all orders or of what was kept. |
| `WorkFile.ServedIsARun` | daemon/worktreesim/worktreesim.go:432-450 | One dispatch is the steps of the machine by one idle writer. |
| `WorkFile.Checkout.ServeInbox` | daemon/worktreesim/worktreesim.go:270-284 | The loop over the inbox serves the commands in order; the bytes are those of all answers. |
| `WorkFile.Checkout.Write` | daemon/worktreesim/worktreesim.go:380-390 | The newest live writer makes the edit and posts with its own token; without one nothing changes and both answers are zero. |
| `FakeClock.Fake.After` | contracts/clock/clock.go:55-66 | A call is one step of the machine: a channel that holds the time at once, or a new waiter at the end. |
| `FakeClock.Fake.Split` | contracts/clock/clock.go:84-93 | The loop splits the waiters into those that are due and the others, both in order. |
| `ClockSafety.SplitIsInOrder` | contracts/clock/clock.go:84-93 | No waiter is lost or doubled, and each stands on its side behind exactly those of that side that stood in front of it. |
| `FakeClock.Fake.SendOut` | contracts/clock/clock.go:96-98 | The sends of one call, in order, each of which finds room. |
| `FakeClock.Fake.Set` | contracts/clock/clock.go:78-99 | Earlier times are ignored; otherwise the time, the waiters that stay, and one value sent to each that is due. |
| `FakeClock.Fake.Advance` | contracts/clock/clock.go:70-75 | No-op for durations that are not positive, otherwise the same as setting the time read before plus the duration. |
| `ClockSafety.EveryRunKeepsInv` | contracts/clock/clock.go:55-99 | Under any interleaving every channel is in exactly one place: waiting strictly ahead of the time, in the hands of one goroutine that sends, or served. |
| `ClockSafety.TimeNeverGoesBack` | contracts/clock/clock.go:70-99 | Between any two moments of a run the time does not decrease. |
| `ClockSafety.NobodyBlocks` | contracts/clock/clock.go:96-98 | No goroutine inside the clock ever waits: every send finds room in its channel. |
| `ClockSafety.ChannelsGetOneValue` | contracts/clock/clock.go:55-99 | A channel gets at most one value, namely the first clock value from the call on that reaches its deadline. |
| `ClockSafety.DeadlinesAreKept` | contracts/clock/clock.go:55-66 | The deadline of a channel is the time of its call plus the duration asked for, to the end of the run. |
| `ClockSafety.CallsMoveTheTime` | contracts/clock/clock.go:70-99 | A `Set`, or an `Advance` with the time it read plus its duration, moves the time exactly there when it gets the lock, unless it is later already, whatever others did in between. |
| `ClockSafety.DueMeansFired` | contracts/clock/clock.go:55-99 | Once the sends are through, a channel got its value if and only if its deadline has come. |
| `ClockSafety.WaitersLieAhead` | contracts/clock/clock.go:84-93 | Pending waiters lie strictly after the time and their channels are empty. |
| `ClockSafety.AdvancesEndBetween` | contracts/clock/clock.go:70-99 | When any number of concurrent Advances are through the lock, the time has moved by at least the longest and at most the sum of the durations. |
| `ClockSafety.OverlapLosesTheShorter` | contracts/clock/clock.go:70-75 | The lower bound is met: of two Advances that both read before either sets, the shorter is lost. |
| `Rail.RunFold` | web/components/ActivityRail.tsx:49-65 | The loop with its map and its rows that are changed in place gives, object by object, the rows of the fold. |
| `RailProps.FoldIsGroupBy` | web/components/ActivityRail.tsx:47-65 | The fold is a group-by: one row for each group of positions, with its first and its last event, in the order of the first ones. |
| `RailProps.OneHeadEach` | web/components/ActivityRail.tsx:50-63 | Each event belongs to exactly one row. |
| `RailProps.SameRowIff` | web/components/ActivityRail.tsx:31-36 | Two events share a row if and only if they are of one class and carry the same call id, not an empty one. |
| `RailProps.ReplacedAreHidden` | web/components/ActivityRail.tsx:47-48 | The rail is about exactly the events that no newer version replaces. |
| `RailProps.RowsHoldExtremes` | web/components/ActivityRail.tsx:38-65 | Every standing event is in a row, and each row starts with the smallest and shows the largest number among its events. |
| `RailProps.DeliveryOrderIsForgotten` | web/components/ActivityRail.tsx:47-65 | With distinct numbers the rows do not depend on the order of the events. |
| `RailProps.LaterEventsKeepPlaces` | web/components/ActivityRail.tsx:47-65 | Adding later events keeps the first events of the old rows as a prefix. |
| `RailProps.LatestInOrderIff` | web/components/ActivityRail.tsx:47-70 | The latest events come out in order if and only if no call has two events around all events of another row: a condition on the standing events alone. |
| `RailProps.EnclosedCallIsOutOfOrder` | web/components/ActivityRail.tsx:67-70 | Three events for which they do not. |
| `Feed.PendingJudge` | web/lib/feed.ts:168-179 | The loop collects exactly the closed attempts and the largest attempt of the standing events and the context. |
| `Feed.JudgementsAgree` | web/lib/feed.ts:151-179 | A standing event is in progress if and only if its task is live and it is a started event of the last attempt. |
| `Feed.PendingIff` | web/lib/feed.ts:127-184 | A row is in progress if and only if its task is dispatched, being prepared, running, waiting for a person or unknown, it was started, no turn end, error or cancel ended its attempt, and no later attempt is known. |
| `Feed.LiveIff` | web/lib/feed.ts:143-161 | A task is live if and only if its status allows it and nothing ended its last attempt; without events only a known status makes it so. |
| `Feed.PendingMeansLive` | web/lib/feed.ts:151-179 | A pending event needs a live task whatever the attempts are. |
| `Feed.DeadTasksShowNothingPending` | web/lib/feed.ts:151-184 | The folded rows of a task that is not live show none in progress; its started rows read unresolved, turn starts excepted. |
| `Feed.PendingOnlyFades` | web/lib/feed.ts:168-179 | New events never bring an event back to progress. |
| `Completion.FromCompletionCondition` | web/lib/completion.ts:49-64 | The loop over the atoms gives the draft read item by item and counts exactly the items the screen cannot show. |
| `Completion.DraftRoundTrip` | web/lib/completion.ts:35-64 | Reading what was written drops nothing and gives the normal form of the draft. |
| `Completion.ReadFinds` | web/lib/completion.ts:46-64 | What any stored condition is read as: the operator of its group, the types of its atoms once each, for submitter and reviewer the agent of the last atom that names one, and as many dropped items as are no atoms of the screen; a single atom is a group of one, and no condition an empty draft. |
| `Completion.NormalIsIdempotent` | web/lib/completion.ts:35-64 | Normalising twice is normalising once. |
| `Completion.WritingNormalizes` | web/lib/completion.ts:35-43 | What is written depends on the normal form only. |
| `Completion.WrittenAlikeIff` | web/lib/completion.ts:35-43 | Two drafts are written alike if and only if they have one normal form. |
| `Completion.SavingKeepsIff` | web/lib/completion.ts:35-64 | Reading a stored condition and writing it keeps it if and only if it is a flat group of the screen's types, each once and in the fixed order, with a submitter by agent or as the assignee, a reviewer by agent or open, and nothing else. |
| `Completion.NormalKeepsTheGates` | web/lib/completion.ts:31-75 | Normalising changes neither the gate nor whether a person must confirm. |
| `Completion.GateIsTheContract` | web/lib/completion.ts:7-75 | The gate lets a draft through if and only if the contract accepts the condition it writes. |
| `Completion.GateReasons` | web/lib/completion.ts:7-75 | Why a draft may not be saved, read off what it writes: no item, an approval without a reviewer, one by somebody who does not take part; and a person must confirm exactly when a user approval or a manual item is written. |
| `AgentTurns.OneResponseEach` | daemon/acpfake/acpfake.go:387-823 | Under any interleaving each request gets exactly one response, in the order of the requests: those of all that were read but the one at work, those queued and the one in the reader's hand. |
| `AgentAnswers.TurnsGoInOrder` | daemon/acpfake/acpfake.go:667-676 | Along every run the turn being played is the one numbered by the turns begun before it, and the last one over and over when the script is used up; refused prompts use up none. |
| `AgentAnswers.TurnIsAnswered` | daemon/acpfake/acpfake.go:674-823 | The response to the k-th turn, in every continuation: `cancelled` when a cancel was flagged since its reset or a hanging step took a token, otherwise what the k-th turn of the script has: its error, its stop reason, or `end_turn`. |
| `AgentAnswers.RequestsGoInOrder` | daemon/acpfake/acpfake.go:387-416 | The request at work, the queue and the reader hold, in order, the requests that were read, and the session refused is the one the last losing load in front of them lost. |
| `AgentAnswers.AnsweredAtOnce` | daemon/acpfake/acpfake.go:570-672 | What is answered without a turn, read off the input: all but prompts, and a prompt on the session lost last, with `refusal`; every other prompt starts a turn. |
| `AgentAnswers.StepsTake` | daemon/acpfake/acpfake.go:708-822 | When a step can go on and what it takes, by the fields that are set: never, a token, an answer or nothing. |
| `AgentAnswers.DeltasAreSent` | daemon/acpfake/acpfake.go:804-812 | Deltas go out one by one until all are out or a cancel of the turn is seen. |
| `AgentTurns.CancelDecides` | daemon/acpfake/acpfake.go:674-822 | A turn ends as cancelled if and only if a cancel was flagged since its reset, a hanging step took a token, or the script says so; otherwise it ends with the scripted reason. |
| `AgentTurns.CancelIsAnswered` | daemon/acpfake/acpfake.go:674-822 | A cancel flagged after the reset and before the turn is settled makes the response `cancelled`, scripted errors included, in every continuation. |
| `AgentTurns.LateStepsAskPermission` | daemon/acpfake/acpfake.go:708-714 | After a cancel of the turn a step is started if and only if it has a permission request; any other ends the turn as cancelled. |
| `AgentSleeps.SleepsIff` | daemon/acpfake/acpfake.go:674-720 | From any moment at which a turn is about to reset the flag: a run of that turn sleeps through a cancel at step `k` if and only if the reader is not stuck, the step hangs, it and all in front of it have permission requests, and none in front of it hangs. |
| `AgentSleeps.HangWakes` | daemon/acpfake/acpfake.go:399-404 | So a hanging step never sleeps through a cancel when it or any step in front of it has no permission request: its token is there or about to be offered. |
| `AgentSleeps.HangBesidePermissionSleeps` | daemon/acpfake/acpfake.go:674-720 | And a turn that begins with a hanging step that has one may sleep through its cancel. |
| `AgentEnds.TurnCanEndIff` | daemon/acpfake/acpfake.go:387-823 | For every script and every moment of every run: some continuation brings the response to the request at work if and only if a condition holds that is read off the state and the steps left. While the reader moves, no step that hangs forever may stand in the way; while it is stuck on a full queue, the steps left must need no cancel, token or answer beyond those already there. |
| `AgentEnds.StuckIff` | daemon/acpfake/acpfake.go:387-410 | While a request is at work the reader is stuck exactly when 18 requests are unanswered or 17 answers are unused, and there are never more. |
| `AgentEnds.EveryTurnCanEnd` | daemon/acpfake/acpfake.go:387-823 | Without steps that hang forever every request of a client with at most 17 unanswered requests and at most 16 unused answers can be brought to its one response, from any moment on. |
| `AgentEnds.RequestsBlockTheReader` | daemon/acpfake/acpfake.go:387-410 | 18 requests in front of the cancel or answer that a step waits for: the reader stands with the last one in hand, and no continuation whatever brings a response. |
| `AgentEnds.AnswersBlockTheReader` | daemon/acpfake/acpfake.go:387-410 | The same with 17 answers that nobody asked for in front of a cancel. |
| `AgentTurns.EarlyCancelMayBeDropped` | daemon/acpfake/acpfake.go:674-678 | A cancel from before the reset may be dropped, flag and token both. |
| `AgentTurns.EarlyCancelMayStillHit` | daemon/acpfake/acpfake.go:399-404 | Or its token arrives after the drain and ends a hanging step although no flag is set. |
| `AgentServer.Server.Read` | daemon/acpfake/acpfake.go:389-412 | One move of the reader over its input: flag and token are two moves, a message is kept in hand until its queue has room, and nothing is read before that. |
| `AgentServer.Server.RunTurn` | daemon/acpfake/acpfake.go:672-822 | The loop over the steps, with the reader moving between any two accesses, is a run of the machine up to its last check or its wait. |
| `AgentServer.Server.SendDeltas` | daemon/acpfake/acpfake.go:804-812 | The delta loop, with the reader moving before each look at the flag, is a run of the machine up to the next check and answers nothing. |
| `AgentServer.Server.HandleNext` | daemon/acpfake/acpfake.go:570-823 | One request: it is answered once, or the loop waits at a step for good, because the input is at its end or no continuation whatever leads to a response; earlier responses stay. |
| `AgentServer.ArrivedAreRead` | daemon/acpfake/acpfake.go:389-412 | The requests that arrive are those of the lines read, in order: none is dropped. |
| `AgentServer.Server.Serve` | daemon/acpfake/acpfake.go:387-416 | The whole loop, for every input and schedule: every request of the input is answered once and in order, or the loop stops for good at such a step, or idle behind a reader that is stuck with an answer nobody asked for. |

## Left out

- Blocks.Grammar: the pattern engine and Unicode classes; only the laws named above are used, and a pattern that broke
  one of them would be outside the theorems.
- BlocksOrder.OrderIsKeptIff: asks for characters that can be told apart, because a text of equal ones reads the same
  in any order; for all texts `OrderIsLost` says that two of its characters are shown the other way round.
- MentionsRoundTrip.RoundTripIff: asks that ids are in the accepted alphabet, that names have no `]`, and that the kind
  of everybody has its own name; a target without these writes a link that says something else or is none.
- Text.DeltaKeepsEndedLines: like all theorems about text, is about characters of the basic plane; surrogate pairs are
  not represented.
- LayersLines.ConversationStartsIff: asks that a blank line is no fence, which is so of the pattern.
- BlocksDocument.DocumentIsRead: the blank lines inside a list are empty ones, and no indented line or child stands behind
  a lazy line that continues its item (for those see `BlocksOrder.OrderIsKeptIff`). A cell of a table has no backslash
  and no outer blanks.
- InlineDocument.TextIsRead: inside a mark its own character does not occur, and the text of a link has no closing
  bracket and no line break; what else the parser does with them is bounded by `InlineInk.InlineInventsNothing`.
- InlineText.NothingIsRead: underscores that only the letters beside them keep from being marks are
  `InlineMarks.IdentifiersStay`.
- InlineMarks.MarkedTextIsRead: the text around the marks is plain; for other texts see `InlineDocument.TextIsRead`.
- LayersHead.ShortHeadIsShown: longer heads are kept as far as `LayersHead.KeptToIs` says and cut as `LayersCut.CutIs`
  says; only one link can lie across the wanted cut.
- InlineShape.EscapingRoundTrip: is about one line, because a newline always becomes a break.
- CardRuns.RunsConverge: a response to the viewer's own call is not compared with the cache by the code, so it is
  assumed not to be older; times are integers, and equal version and time mean equal contents.
- CardRuns.NoVersionIsLost: fetched cards are assumed to list all their earlier versions, which is what the server
  supplies.
- Worktree.Harness.StartAttempt: the runs of the machine begin with first attempts, which is how the harness uses it;
  for other attempts the new state is stated and nothing else. The checkout that `workdir.Prepare` picks is a
  parameter, and its error returns are not modelled.
- WorktreeSafety.KillThenClaimIsSafe: is about kills outside the moment between a spawn and its record, the only kind
  that the harness makes; `WorktreeSafety.ClaimPhaseDoublesIff` is about all of them.
- Worktree.Harness.Restart: the map's order of lanes is a parameter; errors of processes and files are not modelled.
- Worktree.Harness.SweepStore: the sweep is one step, after which every recorded group is dead; signals, the grace
  period and a crash in the middle of the sweep are not modelled.
- WorkFile.Checkout.Write: a command sent to a writer that is still at its gate stays in its inbox and is not followed
  further; the harness leaves no such writer behind. A time-out of the answer is not modelled.
- WorkFile.FileOnlyGrows: an append and its answer are one step, so a writer killed between the two is not modelled.
- WorkCounts.CountsOneIff: markers are single lines and not empty, and the file ends in a whole line without them.
- FakeClock.Fake.Set: times are integers; the real clock and `Since` are not modelled.
- ClockSafety.AdvancesEndBetween: is about runs whose only changes of the time are Advances; calls of `Set` beside them
  would move the bounds.
- RailProps.SameRowIff: asks for classes without a colon, as all classes of the contract are; the key joins class and
  call id with one.
- RailProps.LatestInOrderIff: events have distinct numbers; with equal ones the order of the input decides.
- AgentTurns.OneResponseEach: of the other methods of the protocol only the response and a load that loses its session
  are modelled, not what the responses hold.
- AgentTurns.CancelDecides: speaks of turns that are settled; which of them can be is `AgentEnds.TurnCanEndIff`.
- AgentEnds.TurnCanEndIff: says that a continuation exists, with a client that sends what helps; the input has no end and
  the scheduler is not assumed to be fair.
- AgentServer.Server.Serve: late chunks, usage, costs, session updates, SDK requests and executed commands are single
  steps without a text; the request identifiers of permissions are not compared with the answers. Lines that are no
  JSON are not part of the input.
- The peak of live writers, time-outs, git, processes, HTTP, server-sent events, React components and wording tables:
  input, output and measurement only.
- `contracts/protocol.go`, badge maps, role tables, tab keys and the pairing panel: they would add easy members only.
- The server and the daemon's own loop are not part of this model.
