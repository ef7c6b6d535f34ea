# The core of vissue, modelled and proved

vissue is an issue tracker whose database is plain Org text. This project models
the algorithms its correctness rests on and proves what each is for:

- **Bodies and headings** (`OrgScan`, `Blocks`, `Escape`, `DrawerSite`,
  `ScanAlike`, `ReadBody`, `LostBodies`, `Headline`, `Cookies`, `ReadHead`,
  `LogLine`). The line scanner that tells document structure from block and result
  text, the writer that keeps a body from splitting an issue, the parser's two
  loops that find the body again, the heading line and the lines of a logbook.
- **Issues and files** (`Print`, `PrintOrder`, `Planning`, `DrawerRead`,
  `ReadIssue`, `SiteReadsBack`, `IssueReadsBack`, `ReadAgain`, `Board`,
  `BoardReadsBack`). An issue as text, the parser of an issue and of a tracker
  file, and the round trips between them.
- **Three-way merge** (`MergeSets`, `MergeLog`, `MergeDrawers`, `BallotLines`,
  `DrawerLaws`, `Merge`, `MergeOutcome`, `MergeLaws`, `MergeAgain`, `MergeTie`,
  `MergeFile`, `NewerCopy`). One field, one issue, a whole file: which side each
  value comes from and what clashes, convergence, absorption, identity, set laws
  and order.
- **The append-only ledger** (`Utf8`, `Utf8Chars`, `Records`, `TornAppend`,
  `Skipped`, `Ledger`, `LedgerLaws`, `LedgerStore`, `LedgerCommit`,
  `LedgerHeader`, `LedgerIssue`, `LedgerCatchUp`, `LedgerRun`). Length-prefixed
  records, folding and differencing, commits over a directory, the files they
  make, late board edits.
- **The merge of two ledgers** (`DrawerRecord`, `KeyOrder`, `FoldBack`,
  `MergeCarried`, `LedgerMerge`, `RefusedMerge`). What an issue prints as, what
  of it comes back through the records, and so which merges are given and which
  refused.
- **Consensus** (`Linear`, `Influence`, `Opinions`, `Limits`, `Divisors`, `Walks`,
  `Period`, `Structure`, `Rounds`, `Unsettled`, `Anchoring`, `LongWalks`, `Mixing`,
  `Convergence`, `Factions`, `Settle`). Who listens to whom, the rounds, what
  they conserve, the groups the trust graph falls into and their period, exactly
  which trust makes every run settle or agree, and the factions reported.
- **Blockers and the ready frontier** (`BlockerGraph`, `BoundedWalk`, `Ready`,
  `Plan`).
- **Events and framing** (`Events`, `Frame`, `FrameHeaders`).

Text is `seq<char>`, a `char` standing for one byte; white space and letter case
are ASCII. Weights and opinions are exact reals. Stamps are compared as text, as
the program does. Code that changes things step by step is a class or a method
with loops, proved against a function; the laws are lemmas about the functions.
`OrgScan` declares the module `Org`, as its class has the file's name.

Several things the documentation says do not hold as said. The code is modelled
as it is, and a lemma says exactly when it does what was meant:

- A body whose first lines open a drawer and do not close it, or that leaves a
  block open, swallows the next issue; one whose leading drawer opens a block can
  be split by its own text (`ReadBody.NextIssueIsFoundExactly`; inputs are
  `LostBodies.OpenDrawerSwallowsTheNextIssue`,
  `LostBodies.OpenBlockSwallowsTheNextIssue` and
  `LostBodies.FrontBlockSplitsTheIssue`). A drawer at the front of a body is never
  read back as body, closed or not (`ReadBody.BodyComesBackExactly`); further down
  it is text (`LostBodies.LaterDrawerIsText`).
- A title that ends in a run of tags or in a statistics cookie loses it, and one
  that starts with the word COMMENT is no issue
  (`ReadHead.HeadingReadsBackExactly`, `Headline.TitleLosesItsLastWord`,
  `ReadHead.TitleLosesItsCookie`, `ReadHead.CommentIsNoIssue`).
- A note that starts or ends with a quote comes back less its outer quotes and
  with the raw line kept beside it: another entry, written the same
  (`LogLine.NoteReadsBack`, `LogLine.NoteReadsAs`).
- An issue whose first date is no timestamp is written and cannot be read again
  (`IssueReadsBack.LooseDateLosesTheIssue`), nor can a property with a colon in
  its key or a plus sign at the end of it (`SiteReadsBack.PropertyReadsBackExactly`).
- An issue whose id is empty or begins with a dot is written to a ledger file that
  no reading lists, and the next commit of it is refused
  (`LedgerStore.ListedExactly`, `LedgerCommit.DottedIdIsLost`,
  `LedgerCommit.CommitsAgainExactly`).
- Of an id both sides added, the lines of the older copy's logbook are dropped
  where the newer one has them not, though both logbooks are said to be kept
  (`NewerCopy.BothLogbooksKeptExactly`, `NewerCopy.OlderCopysNoteIsLost`).
- A claim released and taken again within a minute is lost when the base is
  merged in again (`MergeAgain.UnchangedTheirsKeepsOurs`,
  `MergeAgain.ReclaimWithinTheMinuteIsLost`), and a claim without its time can
  come apart when the same side is merged twice
  (`MergeAgain.MergingAgainChangesNothing`, `MergeAgain.HalfClaimComesApart`).
- Two different issues added under one id, neither with the newer logbook, are
  merged to ours in either order and without a conflict
  (`MergeFile.FileConverges`, `MergeFile.NewCopiesKeepOurs`).
- A ledger merge without any conflict is refused when a drawer follows a votes
  drawer, or when theirs' new keys that are shown in the drawer are not in byte
  order (`LedgerMerge.GivenInByteOrder`, `LedgerMerge.BallotsMustComeLast`,
  `RefusedMerge.TwoCommitsAreRefused`).
- A record cut in its header line costs every record appended after it
  (`TornAppend.AppendsAfterATornHeaderAreLost`), and a log cut inside a character
  is not read at all (`Records.TornTail`, `Records.CutInsideACharacter`).
- One anchored agent does not make the rounds contract, nor a run settle
  (`Limits.ContractsIffEveryoneIsAnchored`, `Settle.OneAnchorDoesNotSettle`); what
  does is that every closed group without an anchor has period one
  (`Convergence.SettlesExactly`).
- A divided run stops where its step is small, so agents that would come together
  can be reported in different factions, and with agents they do not hear
  (`Factions.FactionsAreTheGroups`, `Factions.FactionsAreNotTheGroups`).
- A tolerance above one reports the first ballot as the consensus
  (`Settle.NothingConfiguredGivesTheTally`,
  `Settle.ToleranceOfTwoReportsTheFirstBallot`).
- Blockers and the order of siblings can hold each other up, though neither
  goes round alone (`Ready.CanFinishExactly`,
  `Ready.OrderAndBlockersCanDeadlock`).
- A limit of zero still gives one event, and a filtered read drops the newest
  matches first (`Events.LimitOfZeroStillReturnsOne`,
  `Events.NarrowedIsRightExactly`, `Events.NewestMatchIsDropped`).

To verify: `dafny verify dfyconfig.toml`.

## Model

| member | source | states |
|---|---|---|
| Org.BlockNest.Observe | crates/vissue-core/src/org.rs:68-82 | one line moves the block depth and says whether it is block text, as the pure step does |
| Org.OrgScan.Observe | crates/vissue-core/src/org.rs:124-204 | one line takes the whole scan (block depth and result state) to the state of the pure step, which every theorem on bodies is about |
| Org.OrgScan.StartResultElement | crates/vissue-core/src/org.rs:206-234 | the element a line opens after a `#+RESULTS:` line |
| Escape.StepSimulates | crates/vissue-core/src/model.rs:542-558 | the scan that writes and the scan that reads what was written stay related over one line though they are not in the same state, and the reading scan hides whatever would end the issue |
| Escape.RunSimulates | crates/vissue-core/src/model.rs:542-558 | over a whole body, from any related pair of scans: no written line ends the issue, writing it again changes no line, and the scans end related |
| Escape.WrittenBodyNeverEndsTheIssue | crates/vissue-core/src/model.rs:526-558 | for every body, a fresh scan of the written body hides each line that starts a top-level heading |
| Escape.WritingTwiceIsWritingOnce | crates/vissue-core/src/model.rs:540-558 | for every body, writing what was written changes nothing |
| Escape.EscapeBodyHeadlines | crates/vissue-core/src/model.rs:542-558 | the writing loop, its early return included, gives the line-by-line escape |
| Escape.FindBodyEnd | crates/vissue-core/src/store.rs:768-777 | the reading loop stops at the first line that ends the issue and that the scan does not hide |
| DrawerSite.FindBodyStart | crates/vissue-core/src/store.rs:697-766 | the loop that skips blank lines and takes every drawer in front of the body, up to its `:END:` or to the end of the file, stops where the body starts |
| DrawerSite.StartBeforeHeading | crates/vissue-core/src/store.rs:697-766 | a heading behind the lines of a body stops that loop if and only if no drawer at their front is left open |
| ScanAlike.StepAlike | crates/vissue-core/src/org.rs:124-204 | one line keeps two scans alike in what they hide, though one of the lines is indented or ends in a carriage return |
| ReadBody.NextIssueIsFoundExactly | crates/vissue-core/src/store.rs:697-777 | over both loops: the heading behind any written body is found where the body ends if and only if no drawer at the front of the body is left open, no heading line in it splits it (one the writer took for block text and the parser, which scans from behind those drawers, does not), and what stands behind those drawers leaves no block or drawer open and no `#+RESULTS:` waiting |
| ReadBody.BodyComesBackExactly | crates/vissue-core/src/store.rs:697-782 | a written body is read back as it was written, and the heading behind it found, if and only if it ends in no blank, no line ends in a carriage return, its first line is neither blank nor the name of a drawer, and it leaves nothing open |
| LostBodies.OpenBlockSwallowsTheNextIssue | crates/vissue-core/src/store.rs:768-777 | an input that fails: a body of one line that opens a block, after which the next heading is read as body text |
| LostBodies.OpenDrawerSwallowsTheNextIssue | crates/vissue-core/src/store.rs:697-766 | another: the body `:NOTES:`, which leaves the scan nothing open and whose drawer runs over the whole next issue |
| LostBodies.FrontBlockSplitsTheIssue | crates/vissue-core/src/store.rs:697-777 | another: a drawer at the front of the body that opens a block, behind which a heading line of the body ends the issue |
| LostBodies.LaterDrawerIsText | crates/vissue-core/src/store.rs:697-782 | one that does not fail: the same drawer name on a later line is text, and the body comes back |
| Blocks.ClosedBlockIsText | crates/vissue-core/src/store.rs:768-777 | a block whose inner blocks are balanced runs from nothing open to nothing open: every heading in it is hidden and written as it was, and a heading behind it is found where the body ends |
| Blocks.SourceBlockIsText | crates/vissue-core/src/org.rs:510-524 | in particular lines with no block line between `#+BEGIN_` and a word and `#+END_` and a word, or between `#+BEGIN:` and `#+END:`, in any case and indent |
| Blocks.KeywordFound | crates/vissue-core/src/org.rs:238-255 | `#+RESULTS` or `#+RESULT`, in any case and indent, with a hash in brackets or without, a colon and whatever follows, is a results line and no block line |
| Blocks.OneHeadingIsTheResult | crates/vissue-core/src/org.rs:206-234 | the heading right behind a results line is hidden, and the next one is a heading again |
| Blocks.DrawerIsTheResult | crates/vissue-core/src/org.rs:124-234 | a drawer right behind a results line hides every heading in it up to its `:END:`, and the next one is a heading again |
| Blocks.BareHeadingIsIndented | crates/vissue-core/src/model.rs:542-558 | a body of one heading line is written with one blank in front of it |
| Headline.TagsReadBackExactly | crates/vissue-core/src/model.rs:32-56 | the tag run alone: a text with tags behind it is split into the same text and tags if and only if the text has no trailing blank, every tag is legal and, without tags, the text does not itself end in a run of tags |
| Headline.TitleLosesItsLastWord | crates/vissue-core/src/model.rs:32-56 | an input on which it does not: a title ending in `:parser:` comes back a word short and with a tag |
| Headline.RunIsAligned | crates/vissue-core/src/model.rs:510-522 | the tag run ends at column 77, or one blank past a title too long for it |
| Cookies.CutCookies | crates/vissue-core/src/org.rs:1633-1659 | the loop that cuts statistics cookies off the end of a title gives the title and the cookies in order |
| Cookies.CookiesReadBackExactly | crates/vissue-core/src/org.rs:1633-1659 | a title with cookies behind it is split into the same two if and only if the title has no trailing blank and does not end in a cookie, and the cookies are a list of them with single blanks between |
| ReadHead.HeadingReadsBackExactly | crates/vissue-core/src/store.rs:661-672 | the whole heading line as it is written reads back to the same state, priority, title, cookies and tags if and only if the state is one word and a keyword, the title has no outer blank, does not start with the word COMMENT and does not end in a cookie, the cookies are a list of cookies, every tag is legal, and without tags and cookies the title does not end in a run of tags (with tags, one of title and cookies is there) |
| ReadHead.CommentIsNoIssue | crates/vissue-core/src/org.rs:1578-1615 | a title that starts with the word COMMENT is written as a line that is no issue at all |
| ReadHead.TitleLosesItsCookie | crates/vissue-core/src/org.rs:1633-1659 | an input that fails: the title `Fix [2/5]` comes back as `Fix` with a cookie |
| Planning.ParsePlanningLine | crates/vissue-core/src/org.rs:1710-1728 | the loop over one line takes its dates, and none when anything else stands on it |
| Planning.JoinedStampsExactly | crates/vissue-core/src/org.rs:1678-1703 | two stamps joined by dashes are one timestamp if and only if the first is no computed date |
| Planning.TakenExactly | crates/vissue-core/src/org.rs:1678-1703 | a value and the text behind it are told apart if and only if the value is one timestamp |
| Planning.PlanningReadsBackExactly | crates/vissue-core/src/model.rs:453-462 | the planning line of an issue reads back as its dates if and only if each of them is one timestamp |
| ReadIssue.EveryPlanningLineIsRead | crates/vissue-core/src/store.rs:680-695 | all planning lines under a heading are read, up to the first line that is none |
| DrawerRead.DrawerReader.TakeProperties | crates/vissue-core/src/store.rs:706-736 | the loop over a property drawer, keys with a plus sign included, sets the table and the key order, and stops behind its `:END:` |
| DrawerRead.DrawerReader.TakeDrawers | crates/vissue-core/src/store.rs:697-766 | the loop over every drawer in front of the body: properties, logbook lines and the other drawers as text |
| SiteReadsBack.PropertyReadsBackExactly | crates/vissue-core/src/model.rs:580-588 | a written property is read back if and only if its key holds no colon and ends in no plus sign and its value has no outer blanks |
| SiteReadsBack.PlusAppends | crates/vissue-core/src/org.rs:1798-1803 | a key with a plus sign behind it adds to the value there is, one blank between |
| SiteReadsBack.BodyBehind | crates/vissue-core/src/store.rs:768-782 | behind the drawers a written body is read back, and the issue ends behind it and the blank lines that follow, whether a heading or the end comes next |
| ReadIssue.LegacyTagsAreCarried | crates/vissue-core/src/store.rs:783-792 | tags under the name Org reserves go on under the other unless there are some, and nothing else moves |
| ReadIssue.ParseHeading | crates/vissue-core/src/store.rs:655-816 | the heading parser as it runs, every loop in turn, gives the issue and the line behind it, or nothing where the id is missing |
| IssueReadsBack.WrittenIssueIsRead | crates/vissue-core/src/model.rs:398-448 | round trip of a whole issue: its printed text is read back field by field (heading line, dates, properties, logbook, drawers, body), values less their outer blanks and keys in the order of the text, wherever each part can be told from what stands around it |
| IssueReadsBack.LooseDateLosesTheIssue | crates/vissue-core/src/store.rs:680-700 | a first date that opens with no bracket hides the drawer behind it: the issue that was written cannot be read at all |
| ReadAgain.ReadTwiceIsReadOnce | crates/vissue-core/src/model.rs:398-448 | for any issue whatever: what its text says is settled, and writing and reading it once more says the same |
| ReadAgain.ReadIssueComesBack | crates/vissue-core/src/store.rs:655-816 | an issue read from what was written comes back exactly when it is written and read again |
| Board.PeekHeadingId | crates/vissue-core/src/store.rs:611-653 | the look ahead for the id of a heading finds the first one in the first property drawer |
| Board.ParseBoard | crates/vissue-core/src/store.rs:285-374 | the file parser as it runs gives the preamble, the issues and the text between them |
| BoardReadsBack.IssueStartsExactly | crates/vissue-core/src/store.rs:602-607 | a written issue starts one if and only if its id is none of a calendar event |
| BoardReadsBack.IdLineExactly | crates/vissue-core/src/store.rs:627-641 | a property line gives the id if and only if its key is ID, in any case and with a plus sign or without, and its value is not blank |
| BoardReadsBack.IdBehindAnotherDrawer | crates/vissue-core/src/store.rs:645-650 | another drawer in front of the properties is passed over |
| BoardReadsBack.BetweenIsTheText | crates/vissue-core/src/store.rs:354-359 | of the lines between two issues the text is kept, less the newlines in front of it; blank lines alone are nothing |
| BoardReadsBack.WrittenBoardIsRead | crates/vissue-core/src/store.rs:378-400 | round trip of a whole file: preamble, every issue on its lines, and the text between issues come back, however many there are |
| PrintOrder.ValueColumn | crates/vissue-core/src/model.rs:580-588 | the value of a short key starts in the fourteenth column, any other one blank behind its key |
| PrintOrder.KeysComeInThreeParts | crates/vissue-core/src/model.rs:466-485 | keys come as they were read, then the rest of the house order, then what is left in byte order |
| PrintOrder.LegalTagsMoveExactly | crates/vissue-core/src/org.rs:1332-1368 | a tag is on the heading line if and only if it was there or is legal and named by the type or the tags; the tags property stays if and only if something in it is no legal tag |
| LogLine.RenderParse | crates/vissue-core/src/model.rs:156-223 | writing a logbook line that was read gives the line back, whatever it says, less its line ending |
| LogLine.ParseRenderParse | crates/vissue-core/src/model.rs:171-223 | reading what was written after reading changes nothing |
| LogLine.ReadEntryRoundTrip | crates/vissue-core/src/model.rs:113-118 | an entry that came from a line is written on one line and read back as itself |
| LogLine.StateChangeReadsBack | crates/vissue-core/src/model.rs:489-505 | the entry a state change records is read back with both states and its stamp |
| LogLine.NoteReadsBack | crates/vissue-core/src/model.rs:113-129 | a one-line note is read back with its text and its stamp if and only if it is not empty and has no quote at either end |
| LogLine.NoteReadsAs | crates/vissue-core/src/model.rs:113-223 | any one-line note comes back: as it was, or, when a quote stands at an end of it or it is empty, as what is between its outer quotes with the line that was written kept beside it |
| MergeSets.PickCommutes | crates/vissue-core/src/merge.rs:45-53 | a one-field merge clashes on both orders of the sides or on neither, and without a clash gives the same value |
| MergeSets.PickAbsorbs | crates/vissue-core/src/merge.rs:45-53 | merging the same theirs into a clash-free pick leaves it |
| MergeSets.MergeTags | crates/vissue-core/src/merge.rs:256-273 | the in-place tag loops give the merged tags |
| MergeSets.TagsSetLaw | crates/vissue-core/src/merge.rs:256-273 | merged tags are exactly those both sides have and those one side has and the base has not |
| MergeSets.TagsAbsorb | crates/vissue-core/src/merge.rs:256-273 | merging the same theirs again leaves the tags, order included |
| MergeSets.TagsIdentity | crates/vissue-core/src/merge.rs:256-273 | with theirs still the base, the tags are ours, order included |
| MergeSets.MergeTokens | crates/vissue-core/src/merge.rs:384-406 | the in-place token loop gives the merged list |
| MergeSets.TokensSetLaw | crates/vissue-core/src/merge.rs:384-406 | merged tokens, read back from the merged text, are exactly those both sides have and those one side has and the base has not |
| MergeSets.TokensAbsorb | crates/vissue-core/src/merge.rs:384-406 | merging the same theirs again leaves the list |
| MergeSets.TokensIdentity | crates/vissue-core/src/merge.rs:384-406 | with theirs still the base, the value is ours if and only if ours is its tokens with single blanks between, each once |
| MergeLog.MergeLogbook | crates/vissue-core/src/merge.rs:409-439 | the loop that inserts theirs' lines into ours gives the merged logbook |
| MergeLog.LogSetLaw | crates/vissue-core/src/merge.rs:409-439 | the merged lines are exactly those both sides have and those one side has and the base has not |
| MergeLog.OursKeepsItsOrder | crates/vissue-core/src/merge.rs:409-439 | ours' surviving lines keep their order |
| MergeLog.NewLineGoesToItsPlace | crates/vissue-core/src/merge.rs:423-437 | one new line of theirs, wherever theirs has it, goes to the end when it has no stamp and else right before the first older line, and nothing else moves |
| MergeLog.MergedNewestFirst | crates/vissue-core/src/merge.rs:409-439 | if ours' stamped lines are newest first so are the merged ones, whatever the order of theirs |
| MergeLog.LogAbsorb | crates/vissue-core/src/merge.rs:409-439 | merging the same theirs again leaves the logbook |
| MergeLog.LogIdentity | crates/vissue-core/src/merge.rs:409-439 | with theirs still the base, the logbook is ours |
| MergeDrawers.ReadVotes | crates/vissue-core/src/merge.rs:498-516 | the loop over a votes drawer keeps the last line of each voter, in first-seen order |
| BallotLines.LastBallotCounts | crates/vissue-core/src/merge.rs:498-516 | the ballot of a voter is the last line the drawer has of it |
| BallotLines.BallotIsRead | crates/vissue-core/src/merge.rs:507-511 | a line with a stamp, an agent and a choice is filed under the agent, and its stamp is read whole |
| MergeDrawers.VotesTextReadsBack | crates/vissue-core/src/merge.rs:498-554 | a votes drawer a merge writes reads back to the same ballots in the same order |
| MergeDrawers.MergeVotes | crates/vissue-core/src/merge.rs:492-555 | the ballot loop gives the merged drawer and its clashes |
| MergeDrawers.MergeDrawerList | crates/vissue-core/src/merge.rs:451-487 | the drawer loop gives the merged drawers and their clashes |
| DrawerLaws.MergedVotesHold | crates/vissue-core/src/merge.rs:528-554 | the ballot of each voter in the merged drawer, read back, is the three-way ballot of that voter |
| DrawerLaws.VotesCommute | crates/vissue-core/src/merge.rs:492-555 | the same ballots clash on both orders of the sides; without a clash the same voters hold the same ballots |
| DrawerLaws.VotesAbsorb | crates/vissue-core/src/merge.rs:492-555 | merging the same theirs into clash-free votes gives that drawer again, with no clash |
| DrawerLaws.VotesIdentity | crates/vissue-core/src/merge.rs:492-555 | with theirs still the base, the votes are ours, as a merge writes them |
| DrawerLaws.MergedDrawersHold | crates/vissue-core/src/merge.rs:451-487 | under each name the merged drawers hold the three-way drawer; the clash drawer is ours' |
| DrawerLaws.DrawersCommute | crates/vissue-core/src/merge.rs:451-487 | the same drawers clash on both orders; without a clash each name holds the same drawer or the same ballots |
| DrawerLaws.DrawersAbsorb | crates/vissue-core/src/merge.rs:451-487 | merging the same theirs into clash-free drawers changes nothing, order included |
| DrawerLaws.DrawersIdentity | crates/vissue-core/src/merge.rs:451-487 | with theirs still the base, the drawers are ours in order, the votes written as a merge writes them |
| Merge.MergePropertyTable | crates/vissue-core/src/merge.rs:275-309 | the loop over every key builds the merged table and collects its clashes |
| Merge.MergeOne | crates/vissue-core/src/merge.rs:203-371 | the whole heading merge, every field in turn, with the count of its clashes |
| Merge.Annotate | crates/vissue-core/src/merge.rs:353-369 | each clash leaves a note on the logbook and theirs' value in one clash drawer |
| MergeOutcome.LaterMoveWins | crates/vissue-core/src/merge.rs:220-239 | both sides moved the state apart and some entry of theirs moving to theirs' state is later than every one of ours moving to ours': the merged issue is that of a merge in which ours had theirs' state, and the state does not clash |
| MergeOutcome.EarlierMoveLoses | crates/vissue-core/src/merge.rs:220-239 | the same with the sides swapped: ours stays and the state does not clash |
| MergeOutcome.UnorderedMovesClash | crates/vissue-core/src/merge.rs:220-239 | with no such entry on either side the state clashes, ours is kept and theirs is written beside it |
| MergeOutcome.ClashesExactly | crates/vissue-core/src/merge.rs:203-371 | a clash is recorded if and only if a field, a property, a ballot or a drawer was changed apart on the two sides and no rule decides between them |
| MergeOutcome.ClashesAreWritten | crates/vissue-core/src/merge.rs:353-369 | every clash is counted and leaves its note and theirs' value under the name of its field, word for word |
| MergeOutcome.ScalarsAreChosen | crates/vissue-core/src/merge.rs:203-254 | title, priority, statistics, body and the text behind: the side that moved, ours where both moved apart |
| MergeOutcome.PropertiesAreChosen | crates/vissue-core/src/merge.rs:275-333 | the same of each property; in the four that hold sets a token stays if both sides have it or one brought it; of a claim that one side holds and the other logs as released since, both keys go |
| MergeOutcome.TagsAreMerged | crates/vissue-core/src/merge.rs:256-273 | a tag stays if both sides have it or one brought it |
| MergeOutcome.LogLinesAreMerged | crates/vissue-core/src/merge.rs:409-439 | so does a logbook line |
| MergeOutcome.DrawersAreChosen | crates/vissue-core/src/merge.rs:451-487 | each drawer but the votes and the clashes: the side that moved it, ours where both did |
| MergeOutcome.BallotsAreChosen | crates/vissue-core/src/merge.rs:528-554 | of two ballots of one voter moved apart, the one with the later stamp |
| MergeLaws.SameFieldsClash | crates/vissue-core/src/merge.rs:203-371 | swapping the sides clashes on exactly the same fields |
| MergeLaws.MergeConverges | crates/vissue-core/src/merge.rs:203-371 | convergence: a merge with no clash has none with the sides swapped, and both give the same title, state, body, priority, statistics and scalar properties, the same tags, token lists and logbook lines as sets, and the same drawer or ballots under each name |
| MergeLaws.StateCommutes | crates/vissue-core/src/merge.rs:220-239 | the state rule (the later move in the logbook wins) gives one answer for both orders |
| MergeLaws.PropertiesCommute | crates/vissue-core/src/merge.rs:275-333 | the property rules, claim release included, give one table for both orders, token lists compared as sets |
| MergeAgain.MergingAgainChangesNothing | crates/vissue-core/src/merge.rs:203-371 | absorption: when both logbooks only grew from the base, merging the same theirs into a clash-free result gives that result again, whole and with no clash, if and only if the claim does not come apart, which takes a claim time on a side that has no holder beside it |
| MergeAgain.WholeClaimsStay | crates/vissue-core/src/merge.rs:310-332 | with claims that have both their keys or neither, no claim comes apart |
| MergeAgain.HalfClaimComesApart | crates/vissue-core/src/merge.rs:310-332 | an input on which one does: ours has a holder and no time, theirs a time and a release; the first merge keeps the holder, the second drops it |
| MergeAgain.UnchangedTheirsKeepsOurs | crates/vissue-core/src/merge.rs:203-371 | identity: with theirs still the base the merge gives ours, whole and with no clash, unless one of ours and the base holds a claim the other logs a release for at its stamp or later and ours has a claim key; exactly then it does not |
| MergeAgain.ReleasedClaimIsDropped | crates/vissue-core/src/merge.rs:310-332 | where that fails, both claim keys are what is lost |
| MergeAgain.ReclaimWithinTheMinuteIsLost | crates/vissue-core/src/merge.rs:310-332 | an input on which it fails: released and claimed again within one minute |
| MergeFile.PlaceAll | crates/vissue-core/src/merge.rs:88-106 | the loop that inserts theirs' new ids gives the merged order |
| MergeFile.MergedOrderHolds | crates/vissue-core/src/merge.rs:88-106 | the order holds every id of both sides once, keeps ours' order, and puts each heading only theirs has after the one before it in theirs |
| MergeFile.SlotIsNextToPredecessor | crates/vissue-core/src/merge.rs:95-103 | a new heading goes right after its predecessor, past only headings that are new in ours |
| MergeFile.MergeId | crates/vissue-core/src/merge.rs:111-144 | what becomes of one id in each of the eight cases of who has it |
| MergeFile.MergeTracker | crates/vissue-core/src/merge.rs:61-160 | the whole-file loop gives the merged tracker and the sum of its clashes |
| MergeFile.MergedMembership | crates/vissue-core/src/merge.rs:88-149 | no id twice; an id of either side is dropped exactly when the base had it, one side removed it and the other left it as it was; the order is the merged order less those |
| MergeFile.FileConverges | crates/vissue-core/src/merge.rs:61-160 | a whole-file merge with no clash has none with the sides swapped, and an id comes to the same end if and only if the two sides did not add different issues under it with equally new logbooks |
| MergeTie.TieKeepsOurs | crates/vissue-core/src/merge.rs:117-131 | of an id both sides added with equally new logbooks, the merge gives ours, a claim one of the two released aside, and never clashes |
| MergeTie.TieConvergesExactly | crates/vissue-core/src/merge.rs:117-131 | so the two orders of the sides agree on it if and only if the two copies are the same issue |
| MergeFile.NewCopiesKeepOurs | crates/vissue-core/src/merge.rs:117-131 | an input on which they are not: two new copies with different titles and no logbook yet |
| NewerCopy.NewerTheirsWins | crates/vissue-core/src/merge.rs:117-131 | an id both sides added, theirs with a stamp above every one of ours: title, state, body, priority, scalar properties and tail are theirs', tags and tokens theirs' as sets, and nothing clashes, a released claim aside |
| NewerCopy.ElseOursIsKept | crates/vissue-core/src/merge.rs:117-131 | in every other case they are ours' |
| NewerCopy.BothLogbooksKeptExactly | crates/vissue-core/src/merge.rs:117-131 | the merged logbook holds every line of both copies if and only if the newer copy has every line of the older one |
| NewerCopy.OlderCopysNoteIsLost | crates/vissue-core/src/merge.rs:117-131 | an input on which it does not: a note only the older copy has |
| NewerCopy.PreambleIsChosen | crates/vissue-core/src/merge.rs:61-75 | the preamble is that of the side that moved it, ours where both did; a merge counts no conflict only if the preamble and every issue have none |
| MergeFile.ChangedCopyIsKept | crates/vissue-core/src/merge.rs:132-143 | removed on one side and changed on the other: the changed copy stays with a note, and a conflict is counted |
| Records.RecordReadsBack | crates/vissue-core/src/ledger.rs:1113-1118 | a written record, whatever its payload holds and whatever follows it, reads back whole at its own length |
| Records.WireText | crates/vissue-core/src/ledger.rs:1113-1118 | a record byte for byte: `%% state 4`, a newline, `DONE`, a newline |
| Records.RecordsReadBack | crates/vissue-core/src/ledger.rs:872-933 | reading any concatenation of written records gives exactly those records and then what the rest reads to |
| Records.TornTail | crates/vissue-core/src/ledger.rs:742-748 | a log cut at any byte is read if and only if the cut does not lie inside a character, and then gives exactly the records whose payload is whole before the cut |
| Records.CutInsideACharacter | crates/vissue-core/src/ledger.rs:742-748 | an input that is not read: a title of one character of two bytes, cut between them |
| Utf8Chars.TextExactly | crates/vissue-core/src/ledger.rs:742-748 | what is read as text is exactly what encodes some scalar values of Unicode one after another |
| TornAppend.MissingNewlineLosesNothing | crates/vissue-core/src/ledger.rs:1120-1136 | a record that lacks only its last newline is read, and so is every record appended to it |
| TornAppend.TornPayloadTakesWhatFollows | crates/vissue-core/src/ledger.rs:872-933 | a record cut in its payload takes the bytes it lacks from what is appended and reading goes on behind them; the file is refused if and only if the cut or the end of what is taken lies inside a character, or what is behind is refused |
| TornAppend.AppendsAfterATornHeaderAreLost | crates/vissue-core/src/ledger.rs:872-933 | a cut in the header line of the last record, from its third byte on, costs every record appended later, while all before it stay; the file is refused if and only if the cut lies inside a character of the op |
| TornAppend.FirstBytesAreSkipped | crates/vissue-core/src/ledger.rs:872-933 | a cut within the first two bytes of a header takes the header line of the first record appended with it: reading goes on at the payload of that record |
| TornAppend.TornStartCostsOneRecord | crates/vissue-core/src/ledger.rs:872-933 | so it costs exactly that one record when no line of its payload looks like a record or an old drawer |
| LedgerRun.ApplyRecords | crates/vissue-core/src/ledger.rs:872-933 | the cursor over the bytes, resuming after whatever is no record, folds the log as the pure fold of its items does, fails at a payload that is not text, and names exactly the lines it stepped over (a part of them when it fails) |
| Skipped.SkipNonRecord | crates/vissue-core/src/ledger.rs:937-951 | one line is stepped over, and named if it has text, with its number and whether it is a marker of a git conflict |
| Skipped.WarningNamesItsLine | crates/vissue-core/src/ledger.rs:857-861 | the number in a warning is that of the line of the whole file in which the text stepped over stands |
| Skipped.WholeLogSkipsNothing | crates/vissue-core/src/ledger.rs:872-933 | a log of written records is read without a warning |
| Skipped.ConflictMarkers | crates/vissue-core/src/ledger.rs:937-951 | the three lines git leaves around what it could not merge are known as such, records are not |
| LedgerRun.LegacyLogbook | crates/vissue-core/src/ledger.rs:821-855 | an old drawer is taken exactly when it is closed, with its entries and its length |
| Records.OldDrawerIsRead | crates/vissue-core/src/ledger.rs:821-855 | an old drawer, in any case and indent, is taken whole: an entry for each of its lines that is not blank, up to the first that ends it |
| LedgerRun.InsertEntries | crates/vissue-core/src/ledger.rs:848-852 | old entries go to the front in their order, those already there left out |
| LedgerRun.RecordBuf.PushOp | crates/vissue-core/src/ledger.rs:1113-1118 | appends one framed record to the bytes |
| LedgerRun.RecordBuf.PushProps | crates/vissue-core/src/ledger.rs:1078-1092 | appends the property records of a difference |
| LedgerRun.RecordBuf.PushLogDiff | crates/vissue-core/src/ledger.rs:1094-1111 | appends the logbook records: one a new line, oldest first, or the whole log |
| LedgerRun.RecordBuf.PushDiff | crates/vissue-core/src/ledger.rs:1052-1076 | appends the records of a whole difference |
| LedgerRun.RecordBuf.QueueProps | crates/vissue-core/src/ledger.rs:547-585 | refused at a key both sides moved apart, else appends what only the board moved |
| LedgerRun.RecordBuf.QueueMerge | crates/vissue-core/src/ledger.rs:458-530 | refused exactly when some field moved apart on the board and in the ledger, else appends the records of the catch-up |
| LedgerLaws.DiffThenFold | crates/vissue-core/src/ledger.rs:954-1111 | folding the difference of two issues into the first gives the second on every field but the key order and the place in the file |
| LedgerLaws.FoldDiffLog | crates/vissue-core/src/ledger.rs:1094-1111 | the logbook records give the new logbook, whether the old one is its end or not |
| LedgerLaws.FoldProps | crates/vissue-core/src/ledger.rs:1078-1092 | the property records turn one table into the other |
| LedgerLaws.DrawersReadBack | crates/vissue-core/src/ledger.rs:1036-1050 | newline-terminated drawers written as one payload split into the same drawers |
| LedgerLaws.NoDiff | crates/vissue-core/src/ledger.rs:1052-1076 | nothing is written if and only if nothing but the key order and the place changed |
| LedgerLaws.OneFieldOneRecord | crates/vissue-core/src/ledger.rs:1052-1068 | a change of one field is one record, the op of that field and its value now |
| LedgerLaws.OneLineOneRecord | crates/vissue-core/src/ledger.rs:1094-1111 | a line put in front of the logbook is one record, the line itself |
| LedgerLaws.OnePropertyOneRecord | crates/vissue-core/src/ledger.rs:1078-1092 | so is a property that is set or dropped, and the id never is |
| LedgerLaws.OldEntriesStandInFront | crates/vissue-core/src/ledger.rs:848-853 | an old drawer puts its missing entries in front of what is there, in their order |
| LedgerStore.FileNameInjective | crates/vissue-core/src/ledger.rs:1165-1176 | two ids share a file name only when they are the same |
| LedgerStore.NameTellsTheId | crates/vissue-core/src/ledger.rs:1165-1176 | with its escapes undone the name of a file is the id, and a plain id is its own name |
| LedgerStore.ListedExactly | crates/vissue-core/src/ledger.rs:722-740 | the file of an issue is read again if and only if its id is not empty and does not begin with a dot |
| LedgerStore.SplitAtMark | crates/vissue-core/src/ledger.rs:799-805 | a file splits at the log line written into it if and only if the header has no such line of its own |
| LedgerStore.AppendKeepsGood | crates/vissue-core/src/ledger.rs:872-933 | appending whole records to a good file folds exactly those records on top, and the file stays good |
| LedgerCommit.CommitRefines | crates/vissue-core/src/ledger.rs:199-237 | after a commit the directory folds to what it brings: a live issue exactly as committed, a new or returned one as its written text reads, a removed one gone, each under its own file; every file goes on from its earlier bytes |
| LedgerCommit.EveryRunRefines | crates/vissue-core/src/ledger.rs:199-237 | the same after any sequence of commits: removal by tombstone and return by replace included, what the last commit brings is what loads |
| LedgerCommit.SecondCommitIsExact | crates/vissue-core/src/ledger.rs:199-237 | whatever the reader made of the new texts, committing the same issues once more leaves exactly those issues |
| LedgerCommit.CommitOfLoadedWritesNothing | crates/vissue-core/src/ledger.rs:199-237 | committing what the directory loads to leaves every byte as it was |
| LedgerCommit.LedgerDir.ReadDir | crates/vissue-core/src/ledger.rs:200-207 | every file is indexed under the id of the issue it folds to, or else some file does not read or two are of one issue |
| LedgerCommit.LedgerDir.Commit | crates/vissue-core/src/ledger.rs:199-237 | the commit over the files in place: they only grow, whatever is in them, and on good input become the specified directory |
| LedgerCommit.DottedIdIsLost | crates/vissue-core/src/ledger.rs:734-736 | an issue with any other id is written and never loaded |
| LedgerCommit.CommitsAgainExactly | crates/vissue-core/src/ledger.rs:1138-1153 | what was committed can be committed once more if and only if no id is empty or begins with a dot |
| LedgerHeader.NewFileHoldsItsIssue | crates/vissue-core/src/ledger.rs:656-689 | the file of a new issue, for every preamble and text: the preamble in front, then the two mark lines, and on the lines they name the text of the issue, then an empty log |
| LedgerHeader.CommitWritesThatFile | crates/vissue-core/src/ledger.rs:675-681 | that text is what a commit writes for an id that had no file |
| LedgerIssue.NewFileIsRead | crates/vissue-core/src/ledger.rs:742-755 | the header a commit writes is read as the issue it was written for, on the lines it names |
| LedgerIssue.ReplaceIsRead | crates/vissue-core/src/ledger.rs:1027-1034 | so is the payload of a `replace` record |
| LedgerIssue.NewIssueIsTaken | crates/vissue-core/src/ledger.rs:199-237 | with the writer and the reader modelled here, a commit can take every new or returned issue that can be read, and its file folds to that issue as it is read |
| LedgerCatchUp.DecisionIsPick | crates/vissue-core/src/ledger.rs:601-615 | the board decision refuses exactly when the three-way pick clashes, otherwise leaves the field at the pick, and then has nothing more to do |
| LedgerCatchUp.RefusedIsClash | crates/vissue-core/src/ledger.rs:458-530 | a catch-up is refused if and only if the pick clashes on a field or a property |
| LedgerCatchUp.CatchUpIsPick | crates/vissue-core/src/ledger.rs:458-599 | once folded, every field is the pick of the three; no log line of the ledger is lost and every line of the board is there |
| LedgerCatchUp.SecondCatchUpQueuesNothing | crates/vissue-core/src/ledger.rs:382-447 | a second catch-up on the same board queues nothing |
| LedgerMerge.MergeFile | crates/vissue-core/src/ledger.rs:252-315 | the first error in the way (a blank base, a side that does not fold or removed the issue, different issues), else the merge of the three |
| LedgerMerge.AppendMerged | crates/vissue-core/src/ledger.rs:285-314 | the text built is ours, the difference and the carried records, and it is given only when it folds to an issue that prints as what was merged |
| LedgerMerge.TriedExactly | crates/vissue-core/src/ledger.rs:252-284 | a merge is tried if and only if every side reads, none removed the issue and all are of one issue |
| LedgerMerge.OpenedHoldsTheMark | crates/vissue-core/src/ledger.rs:285-293 | ours without the line that opens the log gets one; with it, it stays as it is |
| LedgerMerge.GivenKeepsOurs | crates/vissue-core/src/ledger.rs:285-314 | a result starts with the whole of ours |
| LedgerMerge.CarryOver | crates/vissue-core/src/ledger.rs:295-304 | the loop that removes held copies appends theirs' unknown records that ours lacks |
| LedgerMerge.UnknownRecordsAreKept | crates/vissue-core/src/ledger.rs:295-304 | each unknown record is in the result as often as in the side that has it more often |
| Print.WholeOrderStands | crates/vissue-core/src/model.rs:465-487 | a key order that lists exactly the keys there are is the order they are printed in |
| Print.PrintedTheSame | crates/vissue-core/src/model.rs:398-448 | two issues that differ only in key order, drawers and place print the same if and only if the keys shown in the drawer come in the same order and the other drawers are the same text: neither the id, nor a date, nor a key moved to the heading counts |
| DrawerRecord.DrawersSurviveARecord | crates/vissue-core/src/ledger.rs:1036-1068 | any drawers written as one record print the same after reading if and only if every drawer but the last ends in a newline and the last is not empty, no line ends in a carriage return, and what stands behind the last `:END:` is not blank |
| FoldBack.DiffFoldsTo | crates/vissue-core/src/ledger.rs:954-1076 | what a difference folds to, whatever the drawers and the key order |
| FoldBack.FoldsBackExactly | crates/vissue-core/src/ledger.rs:308-313 | whatever the drawers, the difference folds back to an issue that prints as the one merged if and only if the record keeps the drawers, should they have moved, and the keys shown in the drawer come out in the merged order |
| KeyOrder.MergedOrderFoldsBack | crates/vissue-core/src/merge.rs:334-339 | they come out in that order if and only if theirs' new keys that are shown in the drawer stand in byte order |
| LedgerMerge.GivenExactly | crates/vissue-core/src/ledger.rs:285-314 | of two files as commits leave them, unknown records of theirs included, the merge is given if and only if both of those hold, and is otherwise refused as not folding back |
| LedgerMerge.GivenInByteOrder | crates/vissue-core/src/ledger.rs:285-314 | the same with both key orders whole: drawers that did not move or that the record keeps, and theirs' new shown keys in byte order |
| LedgerMerge.BallotsMustComeLast | crates/vissue-core/src/merge.rs:551-554 | every merge writes the votes drawer anew and without its newline, so with any drawer after it the merge is refused |
| LedgerMerge.BallotsAndAClashAreRefused | crates/vissue-core/src/ledger.rs:308-313 | in particular a merge that keeps ballots and records a clash is refused |
| RefusedMerge.TwoCommitsAreRefused | crates/vissue-core/src/ledger.rs:308-313 | an input: theirs set a verification in one commit and a parent in the next, ours is the base, and the merge is refused; with a date in place of the verification it is given |
| MergeCarried.MergeIsCarried | crates/vissue-core/src/merge.rs:203-371 | a merge of two issues that records can carry is one, its conflict notes included |
| LedgerMerge.TidyPrintsSame | crates/vissue-core/src/model.rs:431-436 | votes written anew print as they did |
| Influence.InfluenceOf | crates/vissue-core/src/consensus.rs:385-424 | the matrix filled, completed and scaled in place holds the specified share everywhere, and the source is configured exactly when some row weighs a voter |
| Influence.NormaliseRow | crates/vissue-core/src/consensus.rs:428-436 | one row is scaled by its sum, a row summing to nothing left alone, and no other row touched |
| Influence.RowsAreDistributions | crates/vissue-core/src/consensus.rs:385-436 | for every trust table each row is a distribution, positive exactly where the voter listens |
| Influence.AbsenteesDoNotCount | crates/vissue-core/src/consensus.rs:377-424 | tables that say the same of the voters give the same matrix, whatever they say of others |
| Influence.AlikeRowsAreAWeightedVote | crates/vissue-core/src/consensus.rs:380-424 | rows that weigh every voter alike give every voter those weights scaled: what a voter earns stands in for the weight it left out |
| Influence.SharesKeepTheRatio | crates/vissue-core/src/consensus.rs:385-436 | two voters a row names have shares in the ratio of the weights written |
| Influence.WriterHasWhatItEarned | crates/vissue-core/src/consensus.rs:399-424 | a writer its own row leaves out has, to a voter it names, the ratio of the mean of the others' positive weights on it (else the self weight) to the weight written |
| Influence.OthersHaveNothing | crates/vissue-core/src/consensus.rs:385-424 | nobody else a row does not name has any share |
| Influence.BlankRowIsEven | crates/vissue-core/src/consensus.rs:385-424 | a row that weighs no voter counts all voters alike |
| Opinions.OpinionsStayDistributions | crates/vissue-core/src/consensus.rs:548-584 | in every round every opinion is a distribution over the choices |
| Opinions.RestsExactly | crates/vissue-core/src/consensus.rs:565-578 | a round leaves an opinion where it is if and only if what the others pull, by the susceptibility, is what the ballot pulls back, by the rest |
| Opinions.ClosedGroupKeepsToItself | crates/vissue-core/src/consensus.rs:565-578 | a group that listens only to itself stays for ever between its own members' ballots, at any susceptibility |
| Opinions.OpposedGroupsNeverMeet | crates/vissue-core/src/consensus.rs:565-578 | two such groups, each voting as one for different choices, keep the spread at one in every round |
| Opinions.SpreadIsTheLargestDisagreement | crates/vissue-core/src/consensus.rs:587-599 | the spread bounds every disagreement and some two agents are that far apart |
| Opinions.SpreadNeverGrows | crates/vissue-core/src/consensus.rs:565-578 | unanchored, the spread of a round is at most that of the round before |
| Opinions.AnchoredSpreadStaysWithinTheBallots | crates/vissue-core/src/consensus.rs:565-578 | anchored, it is never more than that of the ballots |
| Limits.StationaryWeightIsConserved | crates/vissue-core/src/consensus.rs:565-578 | unanchored, any stationary weighting of the agents is worth the same in every round |
| Limits.PositionReachedIsTheWeightedVote | crates/vissue-core/src/consensus.rs:561-564 | where a run stops every agent is within the spread of the ballots weighed by any stationary weighting |
| Limits.PowerWeighsTheBallots | crates/vissue-core/src/consensus.rs:603-630 | the ballots weighed by the power after some rounds are the mean opinion after as many rounds |
| Limits.PowerIsTheWeightedVote | crates/vissue-core/src/consensus.rs:603-630 | and so within the spread of every opinion |
| Limits.PowerIsADistribution | crates/vissue-core/src/consensus.rs:603-630 | the weights of every round of power iteration sum to one |
| Limits.ContractionNeedsEveryAnchor | crates/vissue-core/src/consensus.rs:179-184 | a round brings any two positions closer by a factor if and only if no susceptibility is above it |
| Limits.ContractsIffEveryoneIsAnchored | crates/vissue-core/src/consensus.rs:179-184 | so it contracts at all if and only if every agent is anchored, not just one |
| Limits.AnchoredStepsShrink | crates/vissue-core/src/consensus.rs:179-184 | with every agent anchored the steps of a run shrink by that factor each round |
| Anchoring.StepsStayWithinTheRoom | crates/vissue-core/src/consensus.rs:565-581 | no agent moves in a round farther than its room, which trust and susceptibility alone decide |
| Anchoring.AnchorsInReachSettle | crates/vissue-core/src/consensus.rs:179-194 | when every agent listens, directly or through others, to an anchored one, there is a round at which every run meets its stopping rule, the same whatever the ballots |
| LongWalks.PeriodExists | crates/vissue-core/src/consensus.rs:496-533 | every strongly connected group with an edge has a period, and two closed walks at any member whose lengths are that far apart |
| LongWalks.AllReachAtOnce | crates/vissue-core/src/consensus.rs:496-533 | with two closed walks one apart there is one length at which every member has a walk to the root |
| Mixing.DrawsTogether | crates/vissue-core/src/consensus.rs:440-442 | a closed unanchored group of period one comes as near to one opinion as one likes, and stays there, from a round on that is the same for all ballots |
| Convergence.SettlesExactly | crates/vissue-core/src/consensus.rs:179-194 | a run that stops by the size of its step has a round by which all ballots have stopped if and only if every closed group without an anchor has period one, or the tolerance is above one |
| Convergence.AgreesExactly | crates/vissue-core/src/consensus.rs:438-449 | an unanchored run has a round at which all ballots agree if and only if the trust graph has one closed group and that of period one, as the program classifies it, or the tolerance is above one |
| Factions.GroupByLimit | crates/vissue-core/src/consensus.rs:633-647 | the loop puts each agent with the first group whose first member it is within the tolerance of on every choice |
| Factions.NearExactly | crates/vissue-core/src/consensus.rs:633-647 | two opinions are near if and only if on every choice they are less than a millionth apart or less than the tolerance |
| Factions.FactionsAreOpinionsExactly | crates/vissue-core/src/consensus.rs:633-647 | two agents are in one faction exactly when they are within the tolerance, if and only if being within it carries over from agent to agent |
| Factions.FactionsAreClassesExactly | crates/vissue-core/src/consensus.rs:633-647 | for any classes of agents near one another, the factions are those classes if and only if nobody is near the first agent of a class that begins before its own |
| Factions.FactionsAreTheGroups | crates/vissue-core/src/consensus.rs:196-202 | with everyone in a closed group of period one there is a round from which on, for all ballots, the factions are those groups under exactly that condition |
| Factions.FactionsAreNotTheGroups | crates/vissue-core/src/consensus.rs:196-202 | an input on which a run stops before that round: two who listen to each other are reported in two factions, one of them with an agent neither hears |
| Limits.PhasesGoRound | crates/vissue-core/src/consensus.rs:565-578 | a closed unanchored group whose members each listen one phase on passes its ballots round for ever |
| Settle.OneAnchorDoesNotSettle | crates/vissue-core/src/consensus.rs:181-194 | an input with one anchored agent on which the run never settles and spends its whole budget |
| Divisors.Gcd | crates/vissue-core/src/consensus.rs:535-543 | the loop gives a common divisor every common divisor divides, for any signs |
| Period.LevelsOf | crates/vissue-core/src/consensus.rs:502-515 | the search ends, levels every member and nothing else, each level being the length of a walk from the root |
| Period.SlacksGiveThePeriod | crates/vissue-core/src/consensus.rs:516-532 | the gcd of the slacks of the edges is the gcd of the lengths of all closed walks, whatever walks the levels came from |
| Period.PeriodOf | crates/vissue-core/src/consensus.rs:496-533 | the period found is exactly that gcd, and at least one |
| Structure.ClosedGroupWithinReach | crates/vissue-core/src/consensus.rs:470-483 | from every agent a closed group is reached: there always is one |
| Structure.OnlyClosedIsReached | crates/vissue-core/src/consensus.rs:438-439 | when only one group is closed every agent reaches every member of it |
| Structure.ClosedGroups | crates/vissue-core/src/consensus.rs:463-481 | the filter finds exactly the components no edge leaves |
| Structure.Classify | crates/vissue-core/src/consensus.rs:452-492 | convergent, periodic or divided: one closed group of period one, one of a longer period, two or more |
| Structure.DividedNeverAgrees | crates/vissue-core/src/consensus.rs:444-446 | two closed groups share nobody, and each voting as one for different choices they stay apart in every round |
| Structure.PeriodicNeverSettles | crates/vissue-core/src/consensus.rs:447-449 | a closed group of period two or more has phases one on along every edge; a choice voted for by one phase goes round for ever |
| Unsettled.DividedBallots | crates/vissue-core/src/consensus.rs:444-446 | whatever the trust, a divided group has ballots on which the spread is one in every round, so that the rule of a run that agrees is never met |
| Unsettled.PeriodicBallots | crates/vissue-core/src/consensus.rs:447-449 | whatever the trust, a closed group of period two or more has ballots on which no round meets either stopping rule |
| Rounds.Iterate | crates/vissue-core/src/consensus.rs:548-584 | the loop gives the opinions after the rounds it reports, and stops at the first round that meets its rule or at the budget |
| Rounds.StopsExactly | crates/vissue-core/src/consensus.rs:561-583 | the stopping rule in terms of the opinions: all within the tolerance of each other where the trust graph lets everyone agree, else nobody moved by as much |
| Rounds.StepIsTheLargestMove | crates/vissue-core/src/consensus.rs:565-581 | a step is small exactly when no opinion moved more |
| Rounds.SpreadOf | crates/vissue-core/src/consensus.rs:587-599 | the loops over choices and agents give the spread |
| Rounds.SocialPower | crates/vissue-core/src/consensus.rs:603-630 | the in-place iteration gives the power of the first round that moved no weight by the tolerance, or of the last; scaling it to one changes nothing |
| Settle.RunIsValid | crates/vissue-core/src/consensus.rs:159-177 | every configuration in range gives a run whose rows and ballots are distributions |
| Settle.OwnSusceptibility | crates/vissue-core/src/consensus.rs:159-177 | an agent moves by its own susceptibility, else that of the group |
| Settle.StubbornKeepsItsBallot | crates/vissue-core/src/consensus.rs:159-177 | an agent of susceptibility zero holds its ballot in every round |
| Settle.SettleBallots | crates/vissue-core/src/consensus.rs:130-227 | the outcome reported: settling by what the trust graph decides, the opinions after its rounds, the shared one and the power only of a group that agreed, the factions only of a divided one |
| Settle.NothingConfiguredGivesTheTally | crates/vissue-core/src/consensus.rs:11-12 | with nothing configured the group agrees, and on the tally as a fraction if and only if the tolerance is at most one or every ballot is the same |
| Settle.ToleranceOfTwoReportsTheFirstBallot | crates/vissue-core/src/consensus.rs:11-12 | an input on which it is not: two voters who disagree and a tolerance of two, reported to agree on the first ballot in no round |
| BlockerGraph.FromHeadings | crates/vissue-core/src/graph.rs:38-74 | building succeeds exactly when no id is there twice and the known blocker edges close no cycle, and the graph then has exactly those edges |
| BlockerGraph.EdgeClosesCycle | crates/vissue-core/src/graph.rs:65-70 | an edge closes a cycle if and only if its end already reaches its start |
| BlockerGraph.DependencyGraph.AddEdge | crates/vissue-core/src/graph.rs:57-71 | refused exactly when it would close a cycle, the edges then as they were |
| BlockerGraph.DependencyGraph.AcceptsEdge | crates/vissue-core/src/graph.rs:84-98 | for two known ids accepts exactly the edges that close no cycle, and any edge with an unknown end |
| BlockerGraph.HasPath | crates/vissue-core/src/graph.rs:92 | whether a path leads from one node to another |
| BoundedWalk.Bounded | crates/vissue-core/src/graph.rs:152-168 | each node at shortest distance one to the depth, once, with that distance, nearest first, and nothing else |
| BoundedWalk.LevelsAreDistances | crates/vissue-core/src/graph.rs:152-168 | what the search leaves is the distance of everything near enough |
| BoundedWalk.WalkFrom | crates/vissue-core/src/graph.rs:140-169 | along incoming or outgoing edges: every issue within the depth with its distance, nearest first and by id, and nothing else; refused exactly for an unknown id |
| BoundedWalk.UpIsToBlockers | crates/vissue-core/src/graph.rs:119-137 | one hop of the incoming walk goes to the blockers of an issue, one of the outgoing walk to what it blocks |
| BoundedWalk.OneOrder | crates/vissue-core/src/graph.rs:167-168 | so the answer is one: two lists in that order with the same rows are the same |
| Ready.HoldsOf | crates/vissue-core/src/catalog.rs:410-453 | the index built for some candidates holds back exactly those of them the definition holds back |
| Ready.ListedExactly | crates/vissue-core/src/catalog.rs:342-360 | a row is listed if and only if it is of the project and the state asked for and, asked for the frontier, in a ready state and not held |
| Ready.HeldExactly | crates/vissue-core/src/catalog.rs:411-477 | an issue is held if and only if an issue neither done nor cancelled blocks it, or stands before it under a parent that is kept in order, unless it steps out of the order |
| Ready.FrontierExactly | crates/vissue-core/src/catalog.rs:342-477 | the frontier in the same terms |
| Ready.IndexIsTheDefinition | crates/vissue-core/src/catalog.rs:455-476 | looking a candidate up in any such index is the naive test: an open named blocker anywhere, or, unless it steps out of order, an open earlier sibling under an ordered parent |
| Ready.ListedRows | crates/vissue-core/src/catalog.rs:342-360 | the listing keeps, in corpus order, exactly the issues the filters let through and, for `ready`, nothing held |
| Ready.ProjectsPartitionTheFrontier | crates/vissue-core/src/catalog.rs:342-360 | asking for one project's frontier is asking for the whole and looking at that project |
| Ready.FrontierIsNotEmpty | crates/vissue-core/src/catalog.rs:342-360 | while blockers and the order of siblings together close no cycle among open issues, and every open issue is in a ready state, some issue can be taken up as long as one is open: behind each open one or at it |
| Ready.CanFinishExactly | crates/vissue-core/src/catalog.rs:342-360 | all open issues can be closed one after another, each when it is on the frontier, if and only if every open issue is in a ready state and blockers and the order of siblings together close no cycle among open issues |
| Ready.UnorderedFrontierIsNotEmpty | crates/vissue-core/src/catalog.rs:342-360 | with nothing kept in order it is enough that the blocker edges close no cycle |
| Ready.OrderAndBlockersCanDeadlock | crates/vissue-core/src/catalog.rs:342-360 | an input on which that is not enough: an ordered parent whose first child waits for its second, where nothing can be taken up |
| Plan.PlanAbove | crates/vissue-core/src/catalog.rs:1104-1142 | the plan climbs from parent to parent, meets none twice, and stops exactly at no parent, one met before or a heading outside |
| Plan.OutermostFirst | crates/vissue-core/src/catalog.rs:1104-1142 | the plan lists the outermost parent first and the issue's own parent last |
| Events.Process.EmitIn | crates/vissue-core/src/events.rs:166-220 | one emit moves the files and the process as the step does and returns the new counter |
| Events.Process.GenerationIn | crates/vissue-core/src/events.rs:154-158 | reading the counter also raises what the process remembers |
| Events.EveryRunIsInOrder | crates/vissue-core/src/events.rs:166-220 | however emits and polls of many processes in many directories interleave, logged sequences increase, the counter is at the last or past it, and each emit of a directory returns more than all before |
| Events.LastSequenceRepeats | crates/vissue-core/src/events.rs:177-179 | an emit returns more than was seen if and only if the counters are below the last value |
| Events.OnlyBurstsAreLeftOut | crates/vissue-core/src/events.rs:191-208 | after a write, the same process's next report is left out of the log exactly when it is another write within the window, and the counter goes up either way |
| Events.ABurstStaysLeftOut | crates/vissue-core/src/events.rs:191-208 | a write left out starts the window anew: all but the first of a burst are left out |
| Events.WindowsAreApart | crates/vissue-core/src/events.rs:191-208 | the window of one directory holds nothing back in another |
| Events.SinceIn | crates/vissue-core/src/events.rs:269-294 | the backward scan with its two early exits gives the last newer events, as many as the limit and at least one |
| Events.LimitOfZeroStillReturnsOne | crates/vissue-core/src/events.rs:287-290 | which is the last `limit` newer events if and only if the limit is at least one or nothing is newer |
| Events.LimitOfZeroGivesAnEvent | crates/vissue-core/src/events.rs:287-290 | an input on which it is not: one event and a limit of zero |
| Events.NothingIsMissed | crates/vissue-core/src/events.rs:154-294 | a poller that read the generation and asks later for what is newer gets exactly what was logged since, in order |
| Events.SinceFilteredIn | crates/vissue-core/src/events.rs:301-317 | reads four times the limit, keeps what matches and cuts it to the limit |
| Events.NarrowedIsTheLastMatches | crates/vissue-core/src/events.rs:301-317 | which is the last `limit` matching events if and only if the events read hold as many matches as that and no more |
| Events.NarrowedIsRightExactly | crates/vissue-core/src/events.rs:301-317 | in terms of the log: if and only if the last four times `limit` newer events hold at most `limit` matches, and either that many or every match there is |
| Events.NarrowedHoldsExactly | crates/vissue-core/src/events.rs:301-317 | what is given are events of the project and the kind asked for, or of any where none is asked for |
| Events.NewestMatchIsDropped | crates/vissue-core/src/events.rs:301-317 | an input on which it is not: two matching events and a limit of one give the older |
| Frame.ReadLineLimited | crates/vissue-control/src/frame.rs:192-218 | for any way the stream comes in pieces: the next line, refused exactly when it is longer than the limit |
| Frame.ReadContentLength | crates/vissue-control/src/frame.rs:150-172 | the header block gives the same length or error for any pieces |
| Frame.ReadOne | crates/vissue-control/src/frame.rs:134-148 | one message, its framing or its error, and what is left, depend on the bytes and not on the pieces |
| FrameHeaders.HeaderBlockReads | crates/vissue-control/src/frame.rs:150-172 | a whole header block: the last length given counts, other headers are passed over, the thirty-third line and a body above 8388608 bytes are refused, a length that is no number is refused where it stands |
| Frame.JsonLineReadsBack | crates/vissue-control/src/frame.rs:103-148 | a payload written as a JSON line comes back if and only if it holds no newline, ends in no carriage return and does not look like a header |
| Frame.HeaderMessageReadsBack | crates/vissue-control/src/frame.rs:103-148 | a payload written under headers comes back whatever its bytes |
| Frame.CapIsOnTheBody | crates/vissue-control/src/frame.rs:124-148 | a line is accepted up to the cap on its body, under either line ending |
| Frame.StreamReadsBack | crates/vissue-control/src/frame.rs:103-148 | a stream of messages, framings mixed, reads back as the same messages in order and leaves what follows |

## Left out

- LedgerCommit.CommitRefines: the text of a heading and a `replace` payload are written and read by the functions of a `Codec`; `LedgerIssue.NewIssueIsTaken` shows what it asks of them to hold of the writer and the reader modelled here. Of an issue whose file is live nothing is asked of them, only that records can carry what changed (`CarriedOver`: each drawer ends at its one `:END:`, logbook entries are as a read gives them). What the text of a new issue reads to is what the commit brings.
- LedgerIssue.NewIssueIsTaken: one preamble stands for that of the document and those of its files, and the text of the issue holds no line that opens a log.
- IssueReadsBack.WrittenIssueIsRead: says what comes back of an issue every part of which can be told from the text around it; what becomes of any other is said part by part (`ReadHead`, `Planning`, `SiteReadsBack`, `ReadBody`), not for the whole.
- Board.ParseBoard: the keywords, the usual priority and the test for calendar event ids are parameters; how the settings of a file give them, and the lines `ensure_org_preamble` adds to a preamble, are not modelled.
- BoardReadsBack.WrittenBoardIsRead: text between issues starts at a heading that is no issue, as any other is read as part of the body before it.
- MergeFile.MergeTracker: rendering a heading is a function parameter; the three texts are not parsed here nor the merged one printed (`Board`).
- MergeAgain.UnchangedTheirsKeepsOurs: the drawers are compared with the votes written anew; `LedgerMerge.TidyPrintsSame` says when that prints the same. A votes drawer with no ballot in it is dropped by a merge and is left aside, and list properties are in normal form, which `MergeSets.TokensIdentity` shows to be needed.
- MergeSets.TokensSetLaw: is about the tokens between blanks, as the code splits them; ids separated by commas alone are one token.
- MergeDrawers.MergeVotes: a ballot line is read only as far as its voter and its stamp.
- LedgerMerge.MergeFile: ledger files are taken to be text (only `Records`, `TornAppend` and `LedgerRun.ApplyRecords` have a read that fails on bytes that are not), and what is printed counts bytes where the heading line of the program counts characters.
- LedgerMerge.GivenExactly: what is shown of the properties stands on one line each, as a read leaves it.
- LedgerMerge.GivenInByteOrder: both key orders list exactly the keys there are, as every read and record leaves them but for a heading read with the old `TAGS` key; `LedgerMerge.GivenExactly` does not ask it.
- LedgerLaws.DiffThenFold: the key order is not carried by a difference; `FoldBack.DiffFoldsTo` gives the order it leaves.
- LedgerRun.ApplyRecords: the warning that an op is not known, given once per process, is not modelled.
- Records.RecordReadsBack: a length is an unbounded number; one past the word size is longer than any text, and the reader stops at it either way.
- TornAppend.AppendsAfterATornHeaderAreLost: an appended op that is itself a number.
- TornAppend.TornStartCostsOneRecord: a payload whose lines look like records or an old drawer; `TornAppend.FirstBytesAreSkipped` says what is read then.
- ReadBody.BodyComesBackExactly: is about a body that is followed by another heading; `SiteReadsBack.BodyBehind` has the drawers before it and the end of the file behind it.
- LedgerCommit.LedgerDir.Commit: locks, `fsync`, partial writes other than a torn tail, and the order in which a directory is listed.
- Structure.Classify: the strongly connected components come from a library and are taken as given, by what they are.
- Settle.SettleBallots: ballots are a map from voter to choice; floating-point rounding, the report of the leading choice, of dissent and of where the trust came from, and the opinions after infinitely many rounds are not modelled.
- BlockerGraph.FromHeadings: blocker ids are given as a list; how properties spell them is not modelled. The graph library is modelled by what its calls do.
- Ready.ListedRows: the query text, the sort by priority and the paging of the listing.
- Plan.PlanAbove: lists the ids of the plan, a heading outside the tracker among them, without the rest of their rows; the tree below an issue is not modelled.
- Events.EveryRunIsInOrder: a failed write is not modelled, nor is a counter file that does not parse.
- Frame.ReadOne: errors of the underlying reader other than its end.
- Migration of a board to a ledger, digests and markers, configuration layering, ballots and verbs of `ops.rs`, the command line and the other front ends, search, reports and mirror rendering.
