# Wall-in-one service: the decisions, modelled and proved

The service decides which wallpaper every display shows and when that changes.
This project models those decisions in Dafny and proves what they keep, with the
renderers, the compositor, the bus, the clock and the file system as arbitrary
environments. Each component has its own modules; a class or method stands for
code that works on state step by step, a function gives what that state means,
and lemmas say what every run keeps.

| modules | what they model |
|---|---|
| Schedule, Timeline, NextChange | which rule wins at a local reading; a zone as runs of constant offset; the search for the next change |
| Wire, Reading, Status, StatusSizes, Pieces, GiveBack, ReplyParts, AbridgedFloor, StatusReply, SmallestShape | a status reply of 1 MiB at most: a JSON printer, its escaping and how it reads back, the sizes predicted from them, what is left out and given back, and which shape is the smallest |
| Shuffling, Cursors, CursorMoves, CursorRuns, CursorDeals, CursorUndo | a playlist's cursor: its order, deals, and bounded back and forward history |
| Documents | playlists, entries and media, and how a playlist or an entry is looked up |
| Refusals, RefusalWalk, RouteWalk | the walk past entries the driver won't start, to stand-ins, before a start and after it |
| Retry, Commands | automatic changes tried three times; commands that cancel one that waits |
| Taboo, TabooRuns, TabooOrder | findings of broken entries, what a reload keeps of them, and the order they are listed in |
| Names, Routes, RouteRuns | displays' own routes, kept within bounds |
| Power, PowerMailbox | the debounce of the power source, and the mailbox between two threads |
| ReloadPoll | loading the document again while it is replaced |
| Outputs, OutputEvents, OutputRuns | the compositor's displays: one connection's inventory, its snapshot, and one question |
| Common | an option type, and facts about sequences and sets |

Time is in nanoseconds in the schedule and milliseconds elsewhere. A zone is any
function from seconds of UTC to offsets; chance is any draw of a 64-bit register,
so a deal is any permutation (`Shuffling.EveryOrderCanBeDealt`); a driver is any
function of how often it was asked. Integers are unbounded unless a width is
written out (the generations of routes and of the power mailbox wrap at 2^64).

## What was found

Some of what the code means to hold fails in a corner. Each is shown by an input
and met by the exact condition under which it holds:

- A playlist may have the name that is a later playlist's id
  (`Documents.NameHidesAnId`): the document loads, and a lookup takes either. What
  is shown then goes by an id that finds another playlist's entries. The walk can
  leave a refused entry up, on mirrored displays (`RefusalWalk.RefusedIsShownExactly`)
  and on routes of their own (`RouteWalk.RouteShowsRefusedExactly`); a mark misses
  the key shown (`Documents.ShownKeyIsMarked`); and the retries of a startup whose
  driver fails are over exactly where what is asked for is found by its own id
  (`Retry.Automatic.RunFor`), as every chain is where that holds of all that is
  shown (`Retry.Automatic.RunOut`).
- In such a document a finding can be lost: of two entries of one media, a mark
  makes both taboo, and a reload of the same document drops the one whose key
  finds no entry (`TabooRuns.NameLosesAFinding`). Marks and reloads keep findings
  together exactly under the conditions of `TabooRuns.MarksSpreadExactly` and
  `TabooRuns.ReloadsSpreadExactly`.
- A status reply is tried in six shapes. Some other shape can be smaller, and fit
  where none of them does: exactly when stand-ins take less than their flag, or ids
  do and errors don't, or the reverse (`SmallestShape.FitsWheneverSomeExactly`,
  with `SmallStandInsAreMissed` and `SmallIdsAreMissed`). This is a fact about the
  fitting code taken alone: the witnesses have fields made up to fill the reply,
  and a document that loads keeps to a byte budget (service/src/config.rs:1108-1176,
  not modelled) that by the source's own account leaves the bare floor about 13 KB
  to spare (service/src/runtime.rs:6339-6348).
- The search for the next change can answer up to a second past its eight days,
  whatever the calendar and exactly from a start between two seconds
  (`NextChange.AnswersStayWithinExactly`).
- Overrides that come and go between two looks leave a poll nothing to see, in
  every run that leaves such a gap (`ReloadPoll.OnlyAGapLoses`); and a `reload`
  refused for its argument marks a document as loaded that wasn't
  (`ReloadPoll.AnArgumentLosesADocument`).
- Previous then Next is where it was exactly when nothing was skipped, the entry
  left can still play, the deal in force holds the entry gone back to, and the
  forward list had room (`CursorUndo.PreviousThenNext`).

`Refusals.SomeAreNotVisited` shows why the walk past refused entries needs the
look after the start: after a deal that leaves entries out, the entry about to be
shown may not be asked about.

## Model

| member | source | states |
|---|---|---|
| Schedule.ResolveRuleFor | service/src/schedule.rs:52-68 | the loop keeps the last enabled rule that matches among those visible to the connector, and none exactly when none does |
| Schedule.ResolveTargetedRule | service/src/schedule.rs:75-87 | the same among the rules that name the connector |
| Schedule.MatchesExactly | service/src/schedule.rs:343-382 | a rule matches exactly while a window of it is open that opened on a day of its months and weekdays: to its end on that day, or on the next when it starts later than it ends; with equal or no times the whole day |
| Schedule.WeekdaysFollow | service/src/schedule.rs:378-381 | the days of the week follow each other, Monday first, from a Thursday |
| Schedule.AutomaticRouteIs | service/src/runtime.rs:3158-3192 | the last rule that matches decides, of those that name the display, and the global ones unless its own assignment beats those; else its assignment does, else the default |
| Schedule.AutomaticRouteFollowsTheRules | service/src/runtime.rs:3158-3204 | a route's automatic decision depends on a reading only through which rules match at it, so the search for changes applies to it |
| Schedule.MatchesChangeOnlyAtEdges | service/src/schedule.rs:343-382 | between two readings with no midnight, start or end minute of an enabled rule between them, every rule matches alike |
| Timeline.Bisect | service/src/schedule.rs:203-219 | between two samples of different offset, the one second at which the zone changes, when it changes once between them |
| Timeline.Fixed | service/src/schedule.rs:127-144 | a clock without changes is a timeline of the zone that has none |
| Timeline.New | service/src/schedule.rs:184-241 | the runs are contiguous, of one offset each, adjacent ones of different offsets, and each boundary is the very second the zone changes, for every zone whose changes are far enough apart |
| Timeline.CoveredOnce | service/src/schedule.rs:184-241 | every instant from the start to the end of the last run is in exactly one run |
| Timeline.ShowsTheZonesClock | service/src/schedule.rs:184-241 | up to the horizon, the timeline shows at each instant exactly what the zone's clock shows |
| NextChange.SearchRun | service/src/schedule.rs:301-339 | within a run, the first reading decided otherwise than the start's, or none exactly when there is none; never another when the budget ends |
| NextChange.NextChange | service/src/schedule.rs:271-341 | whatever the budget, a change reported is the first instant the clock shows something decided otherwise, with its reading and true elapsed time; with enough budget none is reported only when there is none |
| NextChange.FirstChangeIsUnique | service/src/schedule.rs:271-341 | two budgets that answer give the same answer |
| NextChange.AnswerIsTheZones | service/src/schedule.rs:184-341 | timeline and search together, with enough budget: the answer within eight days is the zone's own first change, and there is one exactly when a walk along the zone's clock meets one |
| NextChange.WholeSecondStartStaysWithinHorizon | service/src/schedule.rs:184-341 | from a whole second, an answer is never past eight days |
| NextChange.FractionalStartOvershoots | service/src/schedule.rs:184-341 | from every start between two seconds, and for whatever calendar, a weekly rule of one minute and a zone that changes once have an answer past eight days |
| NextChange.AnswersStayWithinExactly | service/src/schedule.rs:184-341 | for each calendar: answers stay within eight days, whatever the rules and the zone, exactly from a start on a whole second |
| Wire.EscapedLenIsExact | service/src/protocol.rs:98-111 | the predicted length is that of the string escaped as section 7 of RFC 8259 requires and the printer does |
| Wire.SuccessLenIsExact | service/src/protocol.rs:113-135 | the predicted length of a successful reply is that of its encoding |
| Wire.AbsentLenIsFieldLen | service/src/runtime.rs:486-495 | the measure of an absent field is what printing that field adds |
| Wire.FewerDigits | service/src/runtime.rs:619-624 | a smaller count takes no more digits |
| Reading.ValueReads | service/src/protocol.rs:137-146 | what is printed, of any depth and whatever follows but a digit, is read back as the same value, where keys need no escaping |
| Reading.ReplyReads | service/src/protocol.rs:131-146 | a client reads the very message of a successful reply from its line |
| Reading.StatusReads | service/src/runtime.rs:6616-6640 | and from that, for every shape, the very fields of the status |
| Status.SizeIsASum | service/src/runtime.rs:6622-7012 | the printed and escaped status is as long as its fixed part and, separately, each part a shape can leave out |
| Status.SummarySays | service/src/runtime.rs:6616-6900 | under each name of the summary stands the moment's own: each error, override, stand-in and reason, or nothing where the shape leaves it out |
| Status.ListsSay | service/src/runtime.rs:6616-6900 | each list is shown from its beginning, and what is not shown of it is counted |
| Status.RowSays | service/src/runtime.rs:6616-6900 | under each name of a row stands the row's own |
| StatusSizes.LeanSavingIsExact | service/src/runtime.rs:516-617 | the lean reply is shorter than the whole one by exactly the saving measured from the whole one, overlong reply or not |
| StatusSizes.TabooListsExactly | service/src/runtime.rs:6519-6583 | listing k taboo records changes the reply's size by exactly the rows, commas and count digits counted |
| StatusSizes.RefusedListsExactly | service/src/runtime.rs:6519-6603 | the same for refused rows, where none listed or none left out also takes a lean key away |
| StatusSizes.ArraysGivenBack | service/src/runtime.rs:6286-6312 | giving `outputs` and missing renderers back adds exactly their arrays less two bytes each |
| StatusSizes.RowDetailIsExact | service/src/runtime.rs:560-617 | leaving ids and errors out of rows takes exactly their units off the reply, and each flag adds exactly its field |
| Pieces.Ordered | service/src/runtime.rs:6394-6414 | the pieces in the order tried: all of them, cheapest first, at a tie connected rows before others and ids before errors |
| Pieces.GroupKeepsItsOrder | service/src/runtime.rs:6394-6414 | in that order each group's pieces keep their own order |
| Pieces.CountSaysWhich | service/src/runtime.rs:6479-6486 | where what came back of a group is a prefix, its count alone gives back what is still out |
| GiveBack.GiveBack | service/src/runtime.rs:6424-6478 | the loop ends; its room stays the limit less the size of the reply its choice describes through single pieces, whole kinds and flags; each group's returned pieces stay a prefix; and at the end no next piece fits and no kind fits whole for its flag |
| AbridgedFloor.ChoiceSize | service/src/runtime.rs:6349-6501 | the reply of a choice of pieces has exactly the size the loop's books give it |
| AbridgedFloor.ListPieces | service/src/runtime.rs:6394-6423 | the list the loop runs on holds exactly the pieces the floor's rows and summary leave out |
| AbridgedFloor.Tally | service/src/runtime.rs:6479-6486 | the counts the choice is turned into rebuild exactly that choice |
| AbridgedFloor.Abridge | service/src/runtime.rs:6349-6501 | the abridged floor fits exactly when the floor with every piece out does, and then nothing more of any group or kind fits |
| ReplyParts.AbridgeRows | service/src/runtime.rs:560-617 | rows cut in place are those of the shape, and the flags say exactly whether anything was left out |
| ReplyParts.MostThatFit | service/src/runtime.rs:6519-6553 | the count measured is the largest whose reply fits |
| ReplyParts.MostListedThatFit | service/src/runtime.rs:6519-6553 | the first reply built for that count fits: at most one build |
| StatusReply.GiveArraysBack | service/src/runtime.rs:6286-6312 | missing renderers and `outputs` come back whenever they fit in what room is left, in that order, with one build |
| StatusReply.FittingWithoutAdditions | service/src/runtime.rs:6236-6312 | fits exactly when a shape it tries does; it is the first of those that fits, with everything of the rows where the floor fits, as many taboo records as fit beside the floor, and the arrays back as far as they fit; six builds at most |
| StatusReply.StatusReply | service/src/runtime.rs:6140-6235 | the status fits exactly when a shape tried does: whole when that fits, lean when only that does, else the first without the additions that fits, with stand-ins and refused rows back as far as they fit; nine builds at most |
| SmallestShape.BestIsSmallest | service/src/runtime.rs:6189-6501 | over all shapes, lean or not and whatever they list: the smallest has each kind of pieces (ids, errors, stand-ins) back exactly where that takes less than its flag |
| SmallestShape.NoRowsIsSmallest | service/src/runtime.rs:6349-6501 | the floor with everything out is the smallest of all shapes exactly when each kind is absent or takes at least its flag |
| SmallestShape.FitsWheneverSomeExactly | service/src/runtime.rs:6140-6237 | of the fitting alone, whatever else a status says and however long: a reply fits whenever some shape of it would, exactly when stand-ins take at least their flag and ids and errors both do or both do not |
| SmallestShape.SmallStandInsAreMissed | service/src/runtime.rs:6189-6312 | of the fitting alone: a status of one display, with a filler, whose smallest shape, with its stand-in, fits to the byte, and no shape tried does |
| SmallestShape.SmallIdsAreMissed | service/src/runtime.rs:6349-6501 | the same, with a rule of one letter beside an error of forty |
| Shuffling.XorShift64.Shuffle | service/src/runtime.rs:7608-7613 | shuffling in place is the shuffle its draws give |
| Shuffling.ShuffledIsAPermutation | service/src/runtime.rs:7608-7613 | a shuffle has what it was dealt from, each as often |
| Shuffling.EveryOrderCanBeDealt | service/src/runtime.rs:7608-7613 | for every permutation there are draws that deal it |
| Shuffling.NeverRunsDry | service/src/runtime.rs:7597-7604 | a register that isn't zero never becomes zero |
| Cursors.PlaylistCursor.constructor | service/src/runtime.rs:5728-5776 | a rebuilt cursor rests on its entry, the others after it as dealt, or all in place |
| Cursors.PlaylistCursor.MoveForward | service/src/runtime.rs:5805-5879 | the loops, in place, refine `Forward` for some deal of exactly the entries that can play, its answer included |
| Cursors.PlaylistCursor.MoveBackward | service/src/runtime.rs:5881-5915 | the loop, in place, refines `Backward`, its answer included |
| Cursors.PlaylistCursor.MoveRandom | service/src/runtime.rs:5917-5981 | in place, refines `AtRandom` for some deal and draw, its answer included |
| Cursors.PlaylistCursor.ResetAutomatic | service/src/runtime.rs:5778-5803 | in place, refines `Reset`: the first of the order that can play, or unchanged |
| CursorMoves.NextFollows | service/src/runtime.rs:5866-5878 | unshuffled, with nothing to come back to, Next goes to the first entry after the current one, around the playlist, that can play |
| CursorMoves.EveryRoundPlaysEachOnce | service/src/runtime.rs:5866-5878 | unshuffled, k presses of Next come to the k-th after of those that can play, in authored order and around: as many as there are play each once |
| CursorMoves.NextUnwinds | service/src/runtime.rs:5823-5836 | Next goes to the newest entry Previous unwound that can play, and gives up newer ones |
| CursorMoves.NextDeals | service/src/runtime.rs:5848-5865 | with nothing left Next takes a deal as dealt, but that the entry just played and the second change places |
| CursorMoves.NewestAreKept | service/src/runtime.rs:7572-7577 | a history keeps its 128 newest |
| CursorMoves.PreviousGoesBack | service/src/runtime.rs:5881-5915 | Previous goes to the newest of the history that can play and isn't current; with none the history is forgotten |
| CursorMoves.ResetTakesTheFirst | service/src/runtime.rs:5778-5803 | a reset goes to the first of the order that can play |
| CursorMoves.RandomIsFair | service/src/runtime.rs:5965-5981 | unshuffled, a draw chooses the entry of that rank among all others that can play |
| CursorMoves.RandomFromTheRest | service/src/runtime.rs:5933-5964 | shuffled, a draw chooses the place of that rank among those left that can play; it comes next, and what was played stays before |
| CursorRuns.ForwardIsSound | service/src/runtime.rs:5805-5879 | Next keeps the cursor's invariant; true means another entry, one that can play; false that the entry is the same |
| CursorRuns.OnwardIsSound | service/src/runtime.rs:4836-4874 | with nothing unwound left, Next moves exactly when another entry can play |
| CursorRuns.BackwardIsSound | service/src/runtime.rs:5881-5915 | Previous keeps the invariant and moves exactly when the history holds another entry that can play |
| CursorRuns.RandomIsSound | service/src/runtime.rs:5917-5981 | Random keeps the invariant and moves exactly when another entry can play |
| CursorRuns.ResetIsSound | service/src/runtime.rs:5778-5803 | a reset rests on an entry that can play exactly when there is one, without history |
| CursorRuns.BuiltIsSound | service/src/runtime.rs:3222-3274 | a new cursor keeps the invariant and rests on the entry wanted |
| CursorRuns.EveryRunIsSound | service/src/runtime.rs:5805-5981 | over every sequence of moves, resets and entries lost: order without repeats and in range, as authored when unshuffled, every entry that can play in it when shuffled, position in it, forward within it, histories at most 128 |
| CursorDeals.PlaysWhatRemains | service/src/runtime.rs:4836-4861 | pressing Next plays what is left of the order that can play, in order, one each |
| CursorDeals.EveryDealPlaysEachOnce | service/src/runtime.rs:5839-5865 | with two or more that can play, for all draws, each deal plays every one of them once before any again, and starts with another than the one just played |
| CursorDeals.FirstOrderPlaysEachOnce | service/src/runtime.rs:5728-5776 | so does a rebuilt cursor's first order, which also holds entries that can't play, perhaps the one it rests on |
| CursorUndo.PreviousThenNext | service/src/runtime.rs:5822-5915 | Previous then Next restores the cursor exactly under the four conditions listed above |
| CursorUndo.PreviousRetracesAndNextReplays | service/src/runtime.rs:5805-5981 | after up to 128 moves, deals included, j Previous revisit the last j entries in reverse and l Next replay them in order |
| Documents.OwnIdsFindThemselves | service/src/config.rs:1178-1182 | each playlist's id finds it exactly when no playlist has the name that is a later one's id |
| Documents.SameMediaIs | service/src/runtime.rs:7482-7494 | two entries are of one media exactly when kind and what that kind shows agree |
| Documents.ItemIs | service/src/runtime.rs:2676-2681 | only scenes have an item: a preset's base, which presets share, or its own |
| Documents.ShownKeyIsMarked | service/src/runtime.rs:2553-2577 | a mark of what a display shows makes that very key taboo exactly when the playlist shown has an entry of that id and media: always when its id finds it |
| Documents.MarkReachesItsMedia | service/src/runtime.rs:2553-2577 | a mark of an entry reaches every entry of its media exactly when the lookup of its key finds that media, or finds nothing and the media is nowhere else |
| Documents.NameHidesAnId | service/src/config.rs:875-895 | a document that loads, in which the playlist shown goes by an id that finds another, and a mark of what is shown misses it |
| Refusals.NothingStandsIn | service/src/runtime.rs:2701-2742 | what a lookup found is left with nothing exactly when it is refused throughout and neither the default nor All media helps |
| Refusals.StandInIs | service/src/runtime.rs:2701-2742 | what stands in is the first that helps: what is asked for, then the default, then All media |
| RefusalWalk.TargetIsOfTheFirst | service/src/runtime.rs:4207-4245 | and what a display shows is of that one |
| Refusals.VisitingOrder | service/src/runtime.rs:121-142 | the loops find each index of the order that is below its length, once, in the order a cursor comes to them |
| Refusals.VisitingIs | service/src/runtime.rs:112-142 | what is visited: exactly those, the current entry first when it is one of them |
| Refusals.NextIsVisitedFirst | service/src/runtime.rs:112-142 | the visits follow Next: whatever can play, Next goes to the first visited after the current entry that can, where it deals nothing anew |
| Refusals.SomeAreNotVisited | service/src/runtime.rs:112-142 | a sound cursor on an entry that can play, which isn't visited |
| RefusalWalk.Walk.AskAhead | service/src/runtime.rs:2857-2927 | no item is asked for twice; it goes past everything taboo or refused to the end, or to the first that has leave to start or needs none; and if nothing is learned the scene visited first, if it can play, has leave |
| RefusalWalk.Walk.StepOver | service/src/runtime.rs:3698-3720 | what rests on a refused entry afterwards is, exactly, what did before and is refused throughout or isn't held by a playlist in force |
| RefusalWalk.Walk.SkipRefused | service/src/runtime.rs:3660-3720 | the rounds end, whatever the driver answers, with every playlist in force off refused entries or without another, each display's entries asked along, and leave for the first visited scenes of playlists found by their ids; no cursor moved but off a refused entry |
| RefusalWalk.Walk.ApplyCurrent | service/src/runtime.rs:3587-3658 | learning at the start ends too: at the last apply no start was refused but of an entry already known to be, or without an item; where ids are their own no display is on a refused entry; no cursor moved but off a refused entry, nor came to rest on a taboo one |
| RefusalWalk.MoveIsSound | service/src/runtime.rs:5805-5879 | one step leaves a refused entry exactly when its playlist isn't refused throughout |
| RefusalWalk.DistinctShownIs | service/src/runtime.rs:5983-6030 | the playlists in force of displays with their own are exactly what is shown for each, once |
| RefusalWalk.FoundIsNotRefused | service/src/runtime.rs:3660-3720 | a display whose playlist is found by its own id, and is in force by it, shows no refused entry once the walk is settled |
| RefusalWalk.RefusedIsShownExactly | service/src/runtime.rs:3660-3720 | a settled walk can leave a refused entry up exactly where the id of what is shown finds a playlist that is refused throughout |
| RefusalWalk.NameHidesARefusal | service/src/config.rs:1178-1182 | a document that loads, in which it does |
| RefusalWalk.NoTargetOnlyWhenNothingPlays | service/src/runtime.rs:4207-4245 | in mirrored mode, with what is shown found by its own id, a display on a playlist with entries shows nothing exactly when nothing stands in |
| RouteWalk.Routing.StepOver | service/src/runtime.rs:3974-3994 | a route stays off refused entries as it is; else it goes to its next that can play; once none can, to the first that can of what its decision names; and where that is the same playlist it stays; where ids are their own it shows no refused entry |
| RouteWalk.Routing.Apply | service/src/runtime.rs:3924-4006 | with routes of their own the walk and the look after the start end as well, every route stepped over; none was refused at its last start but of an entry already known to be, or without an item; where ids are their own no display is on a refused entry |
| RouteWalk.RouteShowsRefusedExactly | service/src/runtime.rs:3974-3994 | a stepped-over route shows a refused entry exactly when it rests on one, nothing of what its id finds can play, and that, looked up again, has something standing in; and one that asks for a playlist can do so exactly where what is shown for it is so: never where that is found by its own id |
| RouteWalk.NameHidesARouteRefusal | service/src/config.rs:1178-1182 | a document that loads with a route that no step leaves off the refused entry it shows |
| RouteWalk.ChangedRoute | service/src/runtime.rs:3276-3308 | a route that changes to its stand-in starts off refused entries unless nothing of it can play |
| RouteWalk.RouteShowsNothingExactly | service/src/runtime.rs:4182-4206 | a route that follows its decision shows nothing exactly when what it asked for is refused throughout and nothing stands in |
| Retry.Automatic.Attempt | service/src/runtime.rs:2385-2493 | what was tried stays in force if it succeeds or keeps no baseline; a failed one that keeps one leaves that in force, applied again after the failure, its cursors moved only off refused entries; it waits with fewer than three attempts; the third failure makes exactly the entries alike to a failed one taboo, the shown key too where its id finds it; and what goes on then is captured as it is, with less left to spend |
| Retry.Automatic.Tick | service/src/runtime.rs:1684-1738 | crashes between attempts make exactly what is alike taboo, and a probe applies; neither raises what a waiting change can spend |
| Retry.Automatic.RunOut | service/src/runtime.rs:1475-1541 | where every playlist some lookup finds, and that can put something up, is found by its own id, a startup's chain ends, with any ticks between its attempts and whatever the driver answers, after at most three attempts for each unit it could spend |
| Retry.Automatic.Startup | service/src/runtime.rs:1475-1541 | a start and the chain its failure begins end |
| Retry.Automatic.RunFor | service/src/runtime.rs:2385-2493 | with a driver that fails every start and displays that ask for one playlist, whose id finds entries, and any ticks between: the attempts are over within three for each unit that can be spent if and only if that playlist is found by its own id; else one is pending after any number |
| Retry.NameKeepsAStartupGoing | service/src/config.rs:1178-1182 | a document that loads with a playlist that a lookup finds and its own id does not, whose id finds entries |
| Retry.NamedAsEachOther | service/src/config.rs:1178-1182 | two playlists named as each other's ids: ids are not their own, and yet every chain ends |
| Retry.OwnIdsAreFound | service/src/config.rs:1178-1182 | documents whose ids are their own meet the condition under which a chain ends |
| Retry.FailureMarks | service/src/runtime.rs:2440-2446 | what a failure marks holds the key shown where its playlist is found by its id |
| Retry.FailuresAre | service/src/runtime.rs:2395-2414 | what failed is what displays show whose start failed, or all that is shown where the apply failed otherwise; an apply succeeds without either, or with nothing shown where nothing is to play |
| Retry.Automatic.MoveOn | service/src/runtime.rs:2450-2467 | it moves only what the failed ones' ids find, each by one Next where ids find their own, and then is true exactly if one left its entry or has another standing in; true whenever another stands in for what an id finds |
| Retry.ThirdFailureSpends | service/src/runtime.rs:2440-2486 | the measure (entries not taboo, items not refused, cursors on taboo entries) falls with every third failure that moves on |
| Retry.LearningSpends | service/src/runtime.rs:3587-3732 | what an apply, a crash or a probe teaches never raises it |
| Commands.Runtime.Handle | service/src/runtime.rs:1548-1634 | the transition of one request, after an accepted one dropped the change that waits; what it means is in the rows below |
| Commands.ChangesAreAccepted | service/src/runtime.rs:1637-1680 | every request whose handler changes the pick, the playlist or rule in force or a cursor passes the cancelling test, or is a reload, which cancels by itself; wherever playlists are assigned some display is there |
| Commands.OnlyWithoutDisplays | service/src/runtime.rs:5014-5079 | the one exception, exactly: a return to the schedule with assignments and no display at all |
| Commands.OnlyCommandsAreAccepted | service/src/runtime.rs:1637-1680 | no other request is accepted, nor one with an argument too many or too few, or with nothing that can play |
| Commands.NotAcceptedChangesNothing | service/src/runtime.rs:1562-1634 | what isn't accepted changes nothing, but for a reload and a return to the schedule that finds no playlist |
| Commands.SwitchIs | service/src/runtime.rs:4680-4695 | a switch is on, off or the document's by its words, in any case and with space around |
| Commands.LowerIs | service/src/runtime.rs:4680-4681 | only capitals of ASCII change, each to its own small letter |
| Commands.PlaybackIs | service/src/runtime.rs:5154-5275 | playback begins, pauses and stops exactly by these requests: never a pause from a stop |
| Commands.PlayApplies | service/src/runtime.rs:5154-5230 | a `play` applies again exactly from a stop, after a failure, or where a pause let go |
| Commands.ShuffleIs | service/src/runtime.rs:5090-5122 | only its own request switches shuffling |
| Commands.CycleIs | service/src/runtime.rs:5124-5152 | only its own request switches cycling |
| Commands.QuitIs | service/src/runtime.rs:1615-1622 | only `quit` ends the service |
| Commands.PickTaken | service/src/runtime.rs:4984-5052 | a pick is taken exactly of a playlist there is that can play and starts, or plays nothing on purpose |
| Commands.PickGivenUp | service/src/runtime.rs:5053-5088 | and given up exactly for a schedule that can play and starts |
| Commands.PickStays | service/src/runtime.rs:1594-1634 | no other request but a reload changes the pick or what is in force |
| Commands.AttemptsReinstallNothingOlder | service/src/runtime.rs:1562-1568 | over every run, the candidate and the baseline of what waits were captured after the last command that changed the choice, and the baseline is what was in force then |
| Commands.AttemptLeaves | service/src/runtime.rs:2385-2425 | an attempt leaves in force what it tried, or after a failure the baseline it keeps |
| Taboo.Quarantine.constructor | service/src/runtime.rs:971-1002 | the configured marks, and the newest 64 of them in the status order |
| Taboo.Quarantine.Mark | service/src/runtime.rs:2520-2577 | the loop over the media's keys refines `Marked`: findings, epoch and status order |
| Taboo.Quarantine.Snapshot | service/src/runtime.rs:2579-2606 | a snapshot has a record for exactly the media with a finding, one of its own, and the order `TabooOrder.FoundOrderIs` describes |
| Taboo.Quarantine.Reconcile | service/src/runtime.rs:2608-2660 | the nested loops refine `Reconciled`, whose findings `TabooRuns.ReloadIsExact` describes |
| Taboo.Quarantine.Reload | service/src/runtime.rs:5400-5470 | an accepted reload reconciles with some snapshot, as `TabooRuns.ReloadIsExact` and `TabooOrder.ReloadListsFindings` describe; a rejected one restores all |
| TabooRuns.MarkIsExact | service/src/runtime.rs:2520-2577 | in every document that loads, a mark of a key makes exactly the entries of the media its lookup finds taboo, the key's own where it finds nothing, and overrules no configured one |
| TabooRuns.MarksSpreadExactly | service/src/runtime.rs:2520-2577 | marks of any keys, after any findings kept together, keep them together (one entry of a media taboo by a finding makes all taboo) if and only if each entry's key finds some entry or its media is nowhere else |
| TabooRuns.ReloadIsExact | service/src/runtime.rs:2579-2660 | in every document that loads, a reload keeps a finding, with the reason and source of one its media had, at exactly the entries whose media had one, that the configuration doesn't mark, and whose key finds some entry; those it marks and finds carry its own record |
| TabooRuns.ReloadsSpreadExactly | service/src/runtime.rs:5682-5692 | reloads from any sound state keep findings together if and only if no unmarked entry whose key finds one shares its media with an entry whose key finds none |
| TabooRuns.NameLosesAFinding | service/src/runtime.rs:5682-5692 | a document that loads in which a mark makes two entries of one media taboo and, whatever the snapshot, a reload of it drops one |
| TabooRuns.OwnKeysFind | service/src/config.rs:1178-1182 | documents whose ids are their own meet that condition: each entry's key finds it |
| TabooRuns.EveryRunIsSound | service/src/runtime.rs:2520-2660 | from a start, over every run of marks of any keys and of reloads, where in each accepted document each entry's key finds some entry or its media is nowhere else: a finding on one entry makes every entry of its media taboo, and the status order has no repeats, 64 keys at most, all taboo |
| TabooOrder.MarkOrder | service/src/runtime.rs:2520-2577 | a mark lists what it marks last, in the document's order, after what was listed, in its order; the 64 newest stay |
| TabooOrder.FoundOrderIs | service/src/runtime.rs:2590-2606 | a snapshot's order has each media with a listed finding once, the one last listed last |
| TabooOrder.ReloadOrder | service/src/runtime.rs:2643-2660 | a reload lists the newest 64 marks, then the findings, of these the newest 64, of these what it still finds |
| TabooOrder.ReloadListsFindings | service/src/runtime.rs:2643-2660 | each entry that keeps a finding whose media had a listed one is listed after the marks, exactly unless 64 newer findings are |
| TabooOrder.ReloadKeepsOrder | service/src/runtime.rs:2643-2660 | findings keep the order of their list |
| TabooOrder.FoundKeysInOrder | service/src/runtime.rs:2610-2660 | which is their media's, as last observed, and within one the document's |
| TabooOrder.PickInOrder | service/src/runtime.rs:2553-2577 | the entries of a media are taken in the document's order |
| TabooOrder.OccurrencesAt | service/src/config.rs:1178-1182 | which is playlist by playlist, entry by entry |
| TabooOrder.ConfiguredInOrder | service/src/runtime.rs:971-1002 | configured marks are listed in the document's order |
| Names.SortedOf | service/src/runtime.rs:3310-3314 | sorted and each once, with the same members |
| Routes.DisplayRoutes.See | service/src/runtime.rs:3323-3344 | each name gets a generation of its own in turn; routes that exist keep what they play |
| Routes.DisplayRoutes.Evict | service/src/runtime.rs:3345-3373 | never fails for up to 64 assignments; evicts no connected or assigned display, only those last seen no later than any kept, and no more than needed |
| Routes.DisplayRoutes.Reconcile | service/src/runtime.rs:3310-3375 | terminates without its eviction error; every connected and assigned display has a route; at most 64 detached and 128 in all; refused whole when more than 64 are live |
| RouteRuns.TheLeastRecentlySeenGo | service/src/runtime.rs:3310-3375 | over every run of probes, a route that goes was last seen in no later a probe than every other detached and unassigned one that stays |
| Power.StablePower.Sample | service/src/power.rs:55-78 | the debouncer's fields after one reading, and when the next is due, as the two rows below interpret them |
| Power.BatteryIsToldUntilAcIsStable | service/src/power.rs:35-78 | for every sequence of readings: battery is told exactly while one was read and no run of AC readings since lasted 500 ms |
| Power.HeldAcIsReadAgainInTime | service/src/power.rs:55-78 | while AC is held back the next reading is due just when it would be told |
| PowerMailbox.PowerObserver.SynchronizeNow | service/src/power.rs:127-158 | enabling or disabling empties the mailbox and starts a generation (one transition of `PowerMailbox.OnlyCurrentReadingsAreHeld`) |
| PowerMailbox.PowerObserver.Prepare | service/src/power.rs:112-125 | preparing a candidate that disables changes nothing (one transition of `PowerMailbox.OnlyCurrentReadingsAreHeld`) |
| PowerMailbox.PowerObserver.Deliver | service/src/power.rs:207-217 | an answer is published only to its own generation (one transition of `PowerMailbox.OnlyCurrentReadingsAreHeld`) |
| PowerMailbox.OnlyCurrentReadingsAreHeld | service/src/power.rs:96-245 | for every interleaving: what is held is of readings all asked for after the last enabling or disabling, only while enabled, and tells battery exactly while they do |
| PowerMailbox.NothingIsHeldWhileDisabled | service/src/power.rs:96-245 | from a disabling to the next enabling nothing is held, whatever the worker still does |
| ReloadPoll.Watcher.Accept | service/src/main.rs:576-585 | a served request's fingerprint is taken before it is served, and known only after a reload (one transition of `ReloadPoll.NothingIsLost`) |
| ReloadPoll.Watcher.Look | service/src/main.rs:591-612 | a poll loads exactly when there is a document and its fingerprint isn't the known one (one transition of `ReloadPoll.NothingIsLost`) |
| ReloadPoll.NothingIsLost | service/src/main.rs:541-617 | for every history of the files, a poll that finds no change finds exactly the document last read, and the overrides last read wherever it finds any |
| ReloadPoll.AQuietPollSettles | service/src/main.rs:541-617 | after one poll of files left alone meanwhile, the last load is of them |
| ReloadPoll.OnlyAGapLoses | service/src/main.rs:221-235 | over every timing of a run, some history loses overrides exactly when a look that can be the last load's leaves a gap between seeing and reading them |
| ReloadPoll.AnArgumentLosesADocument | service/src/main.rs:169-195 | a `reload` with an argument makes a document known that was never read |
| Outputs.State.AddOutput | service/src/outputs.rs:575-601 | an output past 256 isn't tracked, and the inventory says so (one transition of `OutputRuns.EveryConnectionIsBounded`) |
| Outputs.State.AddHead | service/src/outputs.rs:978-1002 | a head past 256 isn't kept, and the connection is given up (one transition of `OutputRuns.EveryConnectionIsBounded`) |
| Outputs.State.AddMode | service/src/outputs.rs:1039-1080 | a mode past 4096 over all heads isn't kept, and the connection is given up (one transition of `OutputRuns.EveryConnectionIsBounded`) |
| Outputs.State.RemoveOutput | service/src/outputs.rs:603-618 | one output of that global goes, the last taking its place (one transition of `OutputRuns.EveryConnectionIsBounded`) |
| Outputs.State.FinishHead | service/src/outputs.rs:1031-1038 | one head goes, the last taking its place (one transition of `OutputRuns.EveryConnectionIsBounded`) |
| Outputs.State.FinishManager | service/src/outputs.rs:1004-1013 | all heads go and their set is no longer complete (one transition of `OutputRuns.EveryConnectionIsBounded`) |
| Outputs.State.Snapshot | service/src/outputs.rs:620-668 | the loops give the snapshot `OutputRuns.SnapshotIs` describes |
| OutputEvents.RemovedIs | service/src/outputs.rs:603-618 | of the outputs of that global the first goes, no other, and nothing else changes |
| OutputEvents.FinishedIs | service/src/outputs.rs:1031-1038 | of the heads of that id the first goes, no other |
| OutputEvents.ModeGoneIs | service/src/outputs.rs:1088-1130 | a mode that goes is on no head, and nothing else of any changes |
| OutputEvents.PendingIsNotShown | service/src/outputs.rs:869-926 | what an output says doesn't show until it is done |
| OutputEvents.DoneShowsTheLastSaid | service/src/outputs.rs:869-926 | then it shows as last said, and no other changes |
| OutputEvents.LogicalNameCounts | service/src/outputs.rs:939-966 | a name of xdg-output counts only where the output has none itself |
| OutputEvents.HeadIsAsSaid | service/src/outputs.rs:1022-1086 | a head is what was said of it since it was announced |
| OutputEvents.FlagsAre | service/src/outputs.rs:575-601 | each flag of too much is set by the event past its ceiling and no other, and stays |
| OutputEvents.HeadsCount | service/src/outputs.rs:968-1020 | heads count from the manager's `done` until it finishes |
| OutputRuns.EveryConnectionIsBounded | service/src/outputs.rs:563-618 | over every sequence of events: at most 256 outputs, 256 heads and 4096 modes; and no flood on a connection that leaves wlr-output-management out |
| OutputRuns.SnapshotIs | service/src/outputs.rs:620-668 | an error exactly for too many; else at most 64 rows in strict order of name: each name that is on, as its first output says, then displays that are off, all while there is room |
| OutputRuns.WaylandOutputs.Ask | service/src/outputs.rs:260-311 | the reconnecting loop ends, as `Asked` says |
| OutputRuns.OneQuestionOpensTwoAtMost | service/src/outputs.rs:239-311 | at most two connections a question; the answer is the kept connection's snapshot; wlr-output-management is in use exactly while it isn't left out |
| OutputRuns.TheOpenConnectionAnswers | service/src/outputs.rs:260-268 | a connection that is up to date answers and is kept |
| OutputRuns.OnlyAFloodIsRetried | service/src/outputs.rs:287-311 | a flood is met, in time, by one more connection without that protocol; any other failure ends the question, unconnected |
| OutputRuns.OnlyTheFlooderIsLeftOut | service/src/outputs.rs:239-290 | wlr-output-management is left out of no other socket's compositor, nor of one that went away |

## Left out

- Processes, signals, mpv IPC, sockets, timeouts, libdbus and the Wayland wire: foreign calls. They appear only as answers of the environment.
- `parse_time` and the other text forms of the configuration: rules carry parsed minutes; `Config::validate` is taken as given (unique ids and names, ceilings, whole windows).
- The byte budget of a document at its ceilings (service/src/config.rs:1108-1176), and reply texts, diagnostics, palettes and dials.
- SmallestShape.FitsWheneverSomeExactly: whether a document within that byte budget can reach a status whose tried shapes all fail to fit is not stated; the fitting is taken alone.
- SmallestShape.SmallStandInsAreMissed: its status is filled up with a made-up field, as no document within the byte budget is known to give one.
- SmallestShape.SmallIdsAreMissed: as SmallStandInsAreMissed.
- Calendars: months and leap years are a parameter, a day's month; the bounds of the calendar library are not modelled. `Timeline::from_reading` is not modelled: timelines start from the exact reading of their start.
- StatusReply.StatusReply: all builds of one reply describe one moment, where the code reads the clock for each; with a moving clock a measure can be off by a timing digit, for which the code keeps its last check.
- StatusReply.StatusReply: "some tried shape fits" is the code's own condition; `SmallestShape.FitsWheneverSomeExactly` says exactly when it is that some shape fits, for records that are objects and refused rows of the three fields they have.
- ReplyParts.MostListedThatFit: the code's retry with one row fewer is never taken, the measure being exact, so it is not modelled.
- AbridgedFloor.Abridge: the code's branch for a floor with everything back is left out: it cannot be taken, as the floor didn't fit.
- Outputs.State.Snapshot: descriptions, positions, scale (floating point) and physical sizes of outputs; names are taken to be of one-byte characters.
- OutputRuns.WaylandOutputs.Ask: deadlines are a flag of each connection's outcome; the socket is the same throughout one question.
- Commands.Runtime.Handle: a request's verb is one of those there are or another; a rejected reload changes nothing; the applies of its rollback, which may move a cursor off a refused entry, are not modelled. What moves and applies do to the cursors is any outcome.
- Commands.ChangesAreAccepted: the code always keeps some output once playlists are assigned (a probe that finds none is an error), which is taken as given.
- Taboo.Quarantine.Reload: only findings and the epoch; the rest of a reload's transaction is not modelled. A reason is as already shortened.
- Retry.Automatic.Attempt: mirrored mode; in independent mode a display may go away during an apply and the failures read may be of an earlier one, so termination is not stated there.
- RefusalWalk.Walk.AskAhead: an item's refusal is kept as a set, without the order status lists it in; a reference to a playlist is the place its lookup finds, and what is looked up again by id is looked up again.
- RouteWalk.Routing.Apply: all routes are the ones selected, and a route's decision names one playlist throughout a walk.
- Routes.DisplayRoutes.Reconcile: what a new route plays is an oracle's; its cursor is in Cursors.
- PowerMailbox.OnlyCurrentReadingsAreHeld: holds for fewer than 2^64 changes of the setting, after which a generation could come back.
- PowerMailbox.PowerObserver.SynchronizeNow: the bounded wait for a first answer is not a step of its own: what is read after it is the mailbox of some later state.
- RouteRuns.TheLeastRecentlySeenGo: holds for fewer than 2^64 sightings in all.
- Independent mode's commands and retries, theme sources, cycle timers and video dials: flat branching beside the routes modelled here.
