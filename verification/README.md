# ClassScribe: a verified model of its algorithms

ClassScribe is a speech-transcription workbench. This project models the parts of it that are algorithms rather than
plumbing, and proves what each of them is for. Audio positions are integers (samples at 16 kHz), texts are sequences of
characters, probabilities and scores are exact reals, and character classes (space, digit, letter) are parameters that
both readers share.

| file | what it models |
|---|---|
| `Isotonic.dfy` | calibration by pool-adjacent-violators, proved the least-squares optimum over every monotone fit |
| `EditDistance.dfy` | the two-row edit distance, proved the least cost over all edit scripts, and a metric |
| `Autosave.dfy` | the browser's autosave protocol as a machine over every interleaving of typing, timers, replies and discards |
| `History.dfy` | undo and redo rebuilt from an append-only log, refining a linear history with a cursor |
| `Vad.dfy` | the streaming voice-activity session against groups of speech frames |
| `Sentences.dfy`, `Paragraphs.dfy`, `Reader.dfy` | sentence spans and readable paragraphs, written once in Python and once in TypeScript |
| `WordTimes.dfy`, `Seams.dfy`, `Mai.dfy` | repairing word times, giving words back across phrase seams, splitting phrases at sentence ends |
| `Intervals.dfy`, `Speakers.dfy`, `SpeakerMapping.dfy`, `Overlap.dfy` | interval unions, the swept speaker error, matching speakers across two lists of turns, speaker overlaps and embedding supports |
| `Segmentation.dfy` | cutting speech into transcript chunks, and giving each heard token to one core |
| `Lid.dfy` | language-identification windows and hysteretic language routing |
| `Streams.dfy` | the buffers of the three streaming workers |
| `Common.dfy` | what several of these share |

The shape follows the source: code that updates variables in loops is a method with that loop, objects that update their
fields are classes, and each is proved equal to a function (or against a direct description) about which the main results
are then proved as lemmas. Run `dafny verify dfyconfig.toml` to check everything.

## What the proofs found

Five properties one would expect do not hold on all inputs. In each case the model keeps the code as it is, a lemma gives
a concrete input, and another lemma gives the exact condition.

* The VAD adapter refuses padding larger than half the minimum silence, but lets exactly half through
  (`backend/classscribe/audio/vad.py:134`). Two bursts exactly the minimum silence apart then touch after padding, the
  second is merged into a region already handed out, and no `push` or `flush` ever returns the extension
  (`Vad.TwoBurstsMerge`). For frames followed by one flush this is the only way the adapter loses output
  (`Vad.CallsHandOutRegionsIff`, `Vad.AdapterLosesOutputIff`). For frames and flushes in any order the calls hand out
  everything if and only if each kept group that touches the one before it after padding ends no later and scores no
  higher (`Vad.AllHandedOutIff`); a flush between two frames that meet loses output under all parameters
  (`Vad.EarlyFlushLosesOutput`).
* Chunking accepts a minimum length of zero or less (`backend/classscribe/audio/segmentation.py:178`), under which the
  cutting loop can come to stand on a cue, choose that same cue and never advance. `Segmentation.StuckSpeech` gives speech
  on which the loop, run from the start of the speech, never ends; `Segmentation.EndsIff` proves that the loop ends on all
  speech if and only if the minimum is at least one sample.
* A hypothesis speaker without a match keeps its own label (`backend/classscribe/benchmark/metrics.py:210`), even when a
  reference speaker of that name was given to another. The two then count as one wherever both talk, and an extra speaker
  can disappear from the error rate (`SpeakerMapping.ExtraSpeakerHidden`, from the turns). At one sample that happens
  exactly when an unmatched active speaker bears the name given to another active one (`SpeakerMapping.HidesSomeIff`). Seen
  from the labels alone, nobody can be hidden whatever the times if and only if the hypothesis has no more labels than the
  reference or shares none with it (`SpeakerMapping.NobodyHiddenIff`).
* Repair cannot give every word of a timed phrase a duration: two words at the only sample of a phrase stay one without
  (`WordTimes.CrampedPhrase`). All words get one if and only if each longest run of words without one, as they are before
  sharing, spans with its neighbour at least as many samples as words (`WordTimes.RepairKeeps`), and the words outside cramped
  groups keep theirs (`WordTimes.UncrampedKeepsDuration`).
* A mark that counts only with the word behind it stays with the word before it at a phrase seam: of the words "3", "." and
  "14" of a phrase "3" before a phrase ".14" nothing moves, although a division exists that fits both
  (`Seams.SeparatingMarkStays`, at `backend/classscribe/classroom/mai.py:474`). Words move if and only if the one division
  that gives up as few words as may be fits (`Seams.TakeBackDecides`). Whatever the next phrase, a fitting division means
  that words move if and only if all divisions that leave the phrase exact leave the same to say as that one
  (`Seams.FitMovesIff`), as they do when no mark in the words separates digits or letters (`Seams.PlainOneReading`).

## Model

| member | source | states |
|---|---|---|
| Isotonic.FitIsotonic | backend/classscribe/benchmark/calibration.py:147-162 | for any non-empty labelled samples: thresholds increase, values never fall and lie in [0,1] for unit labels, the fitted values have the labels' total mass, and no non-decreasing function of the score has a smaller sum of squared errors |
| Isotonic.MergePooled | backend/classscribe/benchmark/calibration.py:155-158 | pooling two violating blocks keeps the key invariant: every prefix mean inside a block is at least the block's mean |
| Isotonic.CrossBound | backend/classscribe/benchmark/calibration.py:155-158 | summation by parts over a pooled block: the covariance of its residuals with any non-decreasing function is at most zero |
| Isotonic.BlockOptimal | backend/classscribe/benchmark/calibration.py:147-162 | on one pooled block the mean is at least as good as any non-decreasing function |
| Isotonic.FitOptimal | backend/classscribe/benchmark/calibration.py:147-162 | the fit as a whole beats every non-decreasing function on the samples, in their original order |
| Isotonic.FitConservesMass | backend/classscribe/benchmark/calibration.py:159-162 | predictions over the training samples sum to the labels |
| Isotonic.PredictMonotone | backend/classscribe/benchmark/calibration.py:172-177 | a higher score never gets a lower prediction |
| Isotonic.PredictIsotonic | backend/classscribe/benchmark/calibration.py:165-178 | each score gets the value of the first threshold at or above it, or the last value |
| EditDistance.EditDistance | backend/classscribe/benchmark/normalizers.py:49-66 | the two-row table with swapped arguments returns the least cost of any edit script from the one whole sequence to the other |
| EditDistance.DistanceIsLeastCost | backend/classscribe/benchmark/normalizers.py:54-66 | the recurrence is achieved by a script and no script is cheaper |
| EditDistance.LeastCostIsMetric | backend/classscribe/benchmark/normalizers.py:49-66 | least script cost is zero exactly on equal sequences, symmetric, and satisfies the triangle inequality |
| EditDistance.Symmetric | backend/classscribe/benchmark/normalizers.py:52-53 | swapping the arguments changes nothing |
| EditDistance.Triangle | backend/classscribe/benchmark/normalizers.py:49-66 | the distance through a third sequence is never shorter |
| EditDistance.ErrorRate | backend/classscribe/benchmark/normalizers.py:69-72 | least cost over the reference length; with an empty reference 0 or 1; zero exactly on equal sequences |
| Autosave.StepKeepsInv | frontend/src/transcriptSaves.ts:92-255 | every step of client, server and network keeps the protocol invariant |
| Autosave.Safety | frontend/src/transcriptSaves.ts:92-255 | over every interleaving from page load: one PATCH in flight at most, the draft is the last text typed, "saved" means the server accepted exactly that text at that version, "waiting" means a timer or PATCH is pending, and with nothing pending a draft is saved or failed |
| Autosave.RunTyped | frontend/src/transcriptSaves.ts:92-120 | over any run the tracked text is the last one typed since the last discard |
| Autosave.DiscardedReplyIsInert | frontend/src/transcriptSaves.ts:80-84 | whatever happens after a discard, a reply to an earlier request changes no later draft, beyond letting it start its own save |
| Autosave.PatchReplyMeans | frontend/src/transcriptSaves.ts:140-169 | a draft whose PATCH is answered builds on the new version, saved if its text is the one sent, else sent next, at once unless a timer runs; refused, it is in conflict; lost, it has failed without a conflict |
| Autosave.LoadReplyMeans | frontend/src/transcriptSaves.ts:176-197 | a load shows the server's version and text as a conflict on the draft of its generation, a lost one marks it failed, any other draft is left alone, and nothing is sent |
| Autosave.RebaseReplyMeans | frontend/src/transcriptSaves.ts:207-240 | exactly when the answered version is the one the rebase was started from, and the draft of its generation still shows that one, does the draft go onto it, at once or after the PATCH in flight; on another version the draft shows the newer reading and neither its conflict nor the PATCHes change; otherwise nothing changes |
| Autosave.RebaseSavesOntoCompared | frontend/src/transcriptSaves.ts:200-241 | over every run from page load, a rebase that sends a PATCH, moves the draft's version or ends its conflict does so onto the version whose text the draft showed when this rebase was asked for and still shows, and the server still has that text at that version |
| Autosave.ComparedDraftIsSaved | frontend/src/transcriptSaves.ts:122-241 | with nothing else under way, loading the latest version shows it as a conflict, and rebasing then saves the draft as the next version |
| Autosave.ConflictHoldsBack | frontend/src/transcriptSaves.ts:97-125 | over any run without discarding and without a rebase's reply, a draft in conflict with nothing in flight stays in conflict on its version and nothing is sent |
| Autosave.UnsavedKeepsVersion | frontend/src/transcriptSaves.ts:92-170 | over any run, typing and newer versions on the page included, an unsaved draft keeps the version it builds on until its own PATCH is accepted or a rebase answered |
| Autosave.EditDuringSaveIsSerialized | frontend/src/transcriptSaves.ts:140-169 | an edit during a save is saved after it on the version the first save returned, and the server holds both texts in order |
| Autosave.EveryQuietRunSaves | frontend/src/transcriptSaves.ts:92-169 | in whatever order timer, server and reply steps follow on a waiting or saving draft, there are at most six, and once none is left the last text typed is saved if and only if the draft's version, or that of the PATCH in flight, leads there |
| Autosave.LastTypedIsSaved | frontend/src/transcriptSaves.ts:92-169 | on a page without a draft, as long as nobody else writes and nothing is lost, any typing followed by any order of those steps ends with the last text typed as the server's current text and the draft shown as saved |
| Autosave.Client.ScheduleTranscriptSave | frontend/src/transcriptSaves.ts:92-120 | the maps change for this segment as the machine's typing step, and for no other segment |
| Autosave.Client.FlushTranscriptSave | frontend/src/transcriptSaves.ts:122-139 | a save starts only when none runs and there is an unsaved draft without conflict; other segments are untouched |
| Autosave.Client.PatchContinuation | frontend/src/transcriptSaves.ts:140-169 | the continuation of a PATCH is the machine's reply step, including the restart of a waiting draft |
| Autosave.Client.LoadContinuation | frontend/src/transcriptSaves.ts:177-197 | the continuation of a load is the machine's reply step, for a draft of its own generation only |
| Autosave.Client.RebaseContinuation | frontend/src/transcriptSaves.ts:208-240 | the continuation of a rebase is the machine's reply step, which sends only onto the version the draft was compared with; no other segment changes |
| Autosave.Client.DiscardTranscriptDraft | frontend/src/transcriptSaves.ts:243-252 | discarding forgets the draft, its timer and its generation, and nothing of any other segment |
| History.RunRefinesLine | backend/classscribe/api/service.py:2217-2290 | from an empty log, any run of edits, undos and redos over any layers equals a linear history at its cursor, and each logged reference was the top of its stack |
| History.ApplyRefines | backend/classscribe/api/service.py:2226-2290 | each operation on the log succeeds exactly when it does on the line, and the two stay related |
| History.UndosThenRedos | backend/classscribe/api/service.py:2255-2270 | n undos then n redos restore every layer |
| History.EditDropsRedo | backend/classscribe/api/service.py:2227-2229 | after an edit there is nothing to redo, and undoing it returns the texts it was made on |
| History.Segment.RebuildStacks | backend/classscribe/api/service.py:2224-2253 | scanning the log with search and removal gives the two stacks of the log |
| History.Segment.HistoryAction | backend/classscribe/api/service.py:2208-2291 | refuses a stale version and an empty stack, else performs the undo or redo and logs it |
| History.Segment.EditSegment | backend/classscribe/jobs/audit.py:37-95 | refuses an automatic edit of the user's layer, then a stale version, else sets the layer, logs its previous text and raises the version |
| Vad.StreamingSession.PushFrame | backend/classscribe/audio/vad.py:61-83 | accepts exactly the ordered frames inside the audio; the fields stay those of the grouped speech so far, and the call returns the regions it created |
| Vad.StreamingSession.FlushSession | backend/classscribe/audio/vad.py:85-88 | afterwards the regions are the published groups of everything pushed |
| Vad.StreamingSession.FinishActive | backend/classscribe/audio/vad.py:94-114 | publishes the active group: dropped when short, padded, clamped, merged when it touches |
| Vad.GroupsAreRuns | backend/classscribe/audio/vad.py:66-82 | the groups are the maximal runs of speech frames with gaps under the minimum silence, each from its first frame's start to its last frame's end, scored by its best frame |
| Vad.SilenceIsIrrelevant | backend/classscribe/audio/vad.py:77-82 | removing every silent frame changes no group, so regions do not depend on how silence was framed |
| Vad.FlushParts | backend/classscribe/audio/vad.py:85-88 | the groups of a session with a flush in it are those before the flush followed by those after it |
| Vad.OrderedMeans | backend/classscribe/audio/vad.py:61-65 | frames are accepted exactly when each ends inside the audio and no later than any later one begins, flushes or not |
| Vad.RegionsCoverSpeech | backend/classscribe/audio/vad.py:94-114 | regions are strictly separated, inside the audio, and cover exactly the samples within the padding of a kept group |
| Vad.RegionsScoreBest | backend/classscribe/audio/vad.py:94-114 | the regions divide up the kept groups wherever two neighbours do not touch after padding; each runs from its first group's padded start to its last one's padded end and scores the best of them |
| Vad.CallsHandOutRegionsIff | backend/classscribe/audio/vad.py:61-114 | for all sessions of frames followed by one flush the calls hand out exactly the regions if and only if twice the padding is under the minimum silence |
| Vad.AllHandedOutIff | backend/classscribe/audio/vad.py:61-114 | for frames and flushes in any order, flushed at the end: the calls hand out exactly the regions if and only if each kept group that touches the one before it after padding ends no later and scores no higher than what it is merged into |
| Vad.EarlyFlushLosesOutput | backend/classscribe/audio/vad.py:85-114 | with a flush between two frames that meet, output is lost under any parameters |
| Vad.AdapterLosesOutputIff | backend/classscribe/audio/vad.py:130-141 | of the parameters the adapter accepts, frames followed by one flush can lose output exactly when twice the padding equals the minimum silence |
| Sentences.SpansPartition | backend/classscribe/readability.py:68-94 | the spans of any text partition it in order, each but the first beginning after visible text |
| Sentences.SentencesEndRight | backend/classscribe/readability.py:43-94 | on the text alone: after a sentence mark there are only more marks, closing marks and space up to the end of its span, all of them; a period is such a mark unless it stands before a decimal digit, between two ASCII letters or digits, or ends a listed abbreviation, a run of initials, or one initial before a capital; after a blank line behind visible text there is only space; and every span but the last has one of the two |
| Sentences.NoCutBehindOpenPeriod | backend/classscribe/readability.py:43-65 | so no span but the last ends right behind a single period of those kinds |
| Sentences.Spans | backend/classscribe/readability.py:68-94 | the scanning loop returns the sentence spans, each of which ends where its text says it must |
| Sentences.PeriodBoundary | backend/classscribe/readability.py:43-65 | the loops over the abbreviation word and the following space decide whether a period ends a sentence |
| Sentences.Positions | backend/classscribe/readability.py:97-110 | collects, in rising order, exactly the characters that carry words |
| Paragraphs.ReadableParagraphsGood | backend/classscribe/readability.py:120-169 | the paragraphs flatten to all sentence slices in order; each is non-empty, has at most six slices, at most 300 trimmed characters unless single, and no hard boundary inside |
| Paragraphs.ParagraphsArranged | backend/classscribe/readability.py:120-169 | the paragraphs are groups of slices, each going on until a boundary, six slices or 300 characters part it from the next, after the right moves: a single slice parted by size only gets two slices, or else one, of a group that keeps three, if together they are within 300 characters |
| Paragraphs.BalanceAtKeeps | backend/classscribe/readability.py:155-168 | moving slices to a small tail keeps the flattening, the limits and the boundaries |
| Paragraphs.GroupKeeps | backend/classscribe/readability.py:130-153 | grouping keeps all slices, the limits, the boundaries, and marks only size splits as continuing |
| Paragraphs.ParagraphSlices | backend/classscribe/readability.py:120-169 | the loops with their running counts return the readable paragraphs, rightly parted and rebalanced |
| Paragraphs.BalanceTail | backend/classscribe/readability.py:156-168 | the countdown loop moves the larger allowed number of slices, or none |
| Reader.ReadersAgree | frontend/src/readability.ts:83-157 | the Python and the TypeScript reader build the same paragraphs from the same sources, sources left out of view counting as boundaries, and these keep everything shown and respect all limits |
| Reader.ReaderSpans | frontend/src/readability.ts:35-64 | the TypeScript scanner returns the same sentence spans, each of which ends where its text says it must |
| Reader.ReaderPeriodBoundary | frontend/src/readability.ts:16-33 | the TypeScript test of a period agrees with the Python one although it is written differently |
| Reader.BuildReadableParagraphs | frontend/src/readability.ts:83-157 | the TypeScript builder returns the readable paragraphs of the sources that are shown, a source left out ending a paragraph, rightly parted and rebalanced |
| Reader.ParagraphsBelong | frontend/src/readability.ts:101-138 | two slices next to each other in a paragraph are of one source, or of two sources shown one right after the other, of one speaker in one language, with 1.2 seconds of pause or more only while the paragraph has less than 60 characters |
| Reader.ParagraphBuilder.AddSource | frontend/src/readability.ts:107-138 | adding a source mutates the builder as the policy's grouping of its slices |
| WordTimes.RepairKeeps | backend/classscribe/classroom/mai.py:411-453 | repair keeps the tokens, yields ordered non-overlapping words inside a timed phrase, changes nothing that was well formed, and leaves no word without duration if and only if every longest run of collapsed words has room among its neighbours |
| WordTimes.UntangledWordsRight | backend/classscribe/classroom/mai.py:411-428 | word by word: it begins where it was reported, held inside the phrase, or where the word before it would end if that is no earlier; it ends where it was reported, at its own start at the earliest and the next word's at the latest |
| WordTimes.SharingIsRight | backend/classscribe/classroom/mai.py:431-453 | on the words before sharing: each longest run of collapsed words and the word before it share evenly, to the sample, from where that word begins to where the run ends; a leading run shares with the word behind it; all other words stay as they are |
| WordTimes.RoomyIffEveryRunHasRoom | backend/classscribe/classroom/mai.py:431-453 | one span test per longest run of collapsed words, on the words before any sharing, says exactly whether sharing meets room in every group; only a leading run changes the test of the next |
| WordTimes.RoomyIffNoneCramped | backend/classscribe/classroom/mai.py:431-453 | every group has room exactly when no word is in a group without |
| WordTimes.SpreadPositiveIff | backend/classscribe/classroom/mai.py:445-451 | sharing a group gives each of its words a duration if and only if the group spans at least as many samples as words; otherwise its first word has none |
| WordTimes.OnlyRoomySharesAll | backend/classscribe/classroom/mai.py:431-453 | if every word has a duration in the end, every group had room |
| WordTimes.UncrampedKeepsDuration | backend/classscribe/classroom/mai.py:431-453 | a word outside the groups without room ends with a duration, whatever becomes of the others |
| WordTimes.CrampedPhrase | backend/classscribe/classroom/mai.py:411-453 | two words reported at the one sample of a phrase: the first ends without duration |
| WordTimes.RoomySharesAll | backend/classscribe/classroom/mai.py:431-453 | with room in every group sharing leaves every word a duration |
| WordTimes.RepairWordTimes | backend/classscribe/classroom/mai.py:411-428 | the loop that clamps and shortens in place, then shares, returns the repaired words, each of them right by its reported times |
| WordTimes.ShareCollapsedTimes | backend/classscribe/classroom/mai.py:431-453 | the index loop terminates and gives each word of a run its even share |
| Seams.ReassignKeeps | backend/classscribe/classroom/mai.py:459-492 | no phrase changes but in its words, and the concatenation of all word tokens is the same |
| Seams.GivingPhraseIsExact | backend/classscribe/classroom/mai.py:484-491 | a phrase that gave words away says exactly its own text afterwards, and the next phrase gained words |
| Seams.TakeBackDecides | backend/classscribe/classroom/mai.py:470-491 | at one seam: all words are kept that say no more than the text, the next is cut before the lexical character that is missing; the rest moves if and only if the kept words then say the text, the moved ones begin the next phrase's text, and the first eight characters that phrase already said come right after |
| Seams.PlainMovesIff | backend/classscribe/classroom/mai.py:470-491 | when no mark in the words separates digits or letters, words move if and only if what the words say is the phrase's own text and then something more, with which the next phrase's text begins and goes on with the first eight characters said there |
| Seams.FitMovesIff | backend/classscribe/classroom/mai.py:470-491 | for every phrase: before whatever phrase a division that makes it exact, fits, and moves something that is said means that words move, if and only if all divisions that make it exact leave the same to say as the one that is made |
| Seams.PlainOneReading | backend/classscribe/classroom/mai.py:470-491 | with words whose marks separate nothing that is always so |
| Seams.SeparatorStays | backend/classscribe/classroom/mai.py:470-491 | otherwise they need not: a period between two words, which counts only with the one behind it, stays with the first, and nothing moves although a division fits |
| Seams.SeparatingMarkStays | backend/classscribe/classroom/mai.py:470-491 | for example the words "3", "." and "14" of a phrase "3" before a phrase ".14" |
| Seams.DivideKeeps | backend/classscribe/classroom/mai.py:473-482 | dividing a phrase's words, even inside a token, loses no character |
| Seams.ReassignBoundaryWords | backend/classscribe/classroom/mai.py:459-492 | the loop over the seams returns the reassigned phrases: seam by seam from left to right the words of the one division move if it fits, and otherwise nothing changes; no text and no token is lost |
| Seams.SmoothingStaysInside | backend/classscribe/classroom/mai.py:590-609 | smoothing only trades Chinese for Japanese and back, never overrules kana, and changes nothing else |
| Seams.SmoothingChangesIff | backend/classscribe/classroom/mai.py:590-609 | a phrase changes exactly when it is Chinese or Japanese, has at most twelve lexical characters and no kana, and all its neighbours, of which there is one at least, speak the other of the two |
| Seams.Adapt | backend/classscribe/classroom/mai.py:667-668 | from recognised phrases to stored ones every non-space character survives in order |
| Mai.SplitFaithful | backend/classscribe/classroom/mai.py:495-582 | a split conserves all non-space characters across groups and inside each group's words; groups have positive, ordered, non-overlapping times; without evidence the phrase stays whole |
| Mai.EvidenceIff | backend/classscribe/classroom/mai.py:516-543 | there is evidence if and only if every repaired word has text and a duration, in order and inside a timed phrase, together they say exactly the phrase's text, and something is found; each aligned word then lies from its first to its last lexical character, a mark on its own at its first place in the gap, and only marks not found there are left out |
| Mai.GroupsHoldWords | backend/classscribe/classroom/mai.py:548-581 | each group holds the aligned words after those of the groups before it, with their own times and the text from each to the next, from the last sentence end before its first word to the last one before the next group's |
| Mai.CutsAreSentenceEnds | backend/classscribe/classroom/mai.py:545-554 | every cut is a sentence end that no aligned word straddles, the last one before the group's next word, and the last cut is the end of the text |
| Mai.CutWhereSentencesEnd | backend/classscribe/classroom/mai.py:545-554 | a group ends with a word if and only if a sentence ends between that word and the next |
| Mai.SplitTimedPhrase | backend/classscribe/classroom/mai.py:495-582 | the cursors and loops return the split, and the final fallback is never taken |
| Mai.AlignWords | backend/classscribe/classroom/mai.py:516-543 | the aligning loop finds the word evidence or its absence |
| Intervals.UnionDuration | backend/classscribe/benchmark/metrics.py:462-471 | the number of samples some span covers, inverted spans counting for none |
| Intervals.CoveredSamples | backend/classscribe/benchmark/models.py:279-288 | the number of samples some span covers |
| Intervals.Merge | backend/classscribe/alignment/validation.py:68-79 | separated spans that cover the same samples, whose lengths sum to the number of samples covered |
| Intervals.IntersectionDuration | backend/classscribe/benchmark/metrics.py:474-484 | the number of samples both lists cover |
| Intervals.SpeechCoverage | backend/classscribe/alignment/validation.py:50-65 | exactly the covered voiced samples over the voiced samples, hence at most one without the cap; 1 or 0 when nothing is voiced |
| Speakers.Sweep | backend/classscribe/benchmark/metrics.py:199-216 | each of the four totals over elementary intervals equals its sum over all samples, and widening the range adds nothing |
| Speakers.CountsMean | backend/classscribe/benchmark/metrics.py:206-215 | at one sample the speakers only one side has are paired off as confusions, and those left over are missed or false alarms |
| Speakers.ErrorsMeaning | backend/classscribe/benchmark/metrics.py:206-217 | missed, false alarm and confusion add up to the sum over samples of max minus intersection, and are zero exactly when the mapped speakers agree at every sample |
| Speakers.DiarizationErrorRate | backend/classscribe/benchmark/metrics.py:199-217 | the rate is those errors over the reference speech, and zero if and only if the speakers agree at every sample |
| SpeakerMapping.CountedMeans | backend/classscribe/benchmark/metrics.py:436-443 | the nested loops count every pair of labels once, also one that shares nothing, with the samples its turns share |
| SpeakerMapping.OverlapPositiveIff | backend/classscribe/benchmark/metrics.py:436-443 | two speakers share something exactly when both are active at some sample |
| SpeakerMapping.OverlapIsSum | backend/classscribe/benchmark/metrics.py:436-443 | the overlap of two labels is the sum over all samples of the pairs of their turns there |
| SpeakerMapping.RankingMeans | backend/classscribe/benchmark/metrics.py:447-449 | the sorted pairs are those of all labels with their overlaps, strictly ordered by falling overlap, ties by label |
| SpeakerMapping.MappingIsStable | backend/classscribe/benchmark/metrics.py:433-455 | every two labels compete with a chosen pair whose turns overlap longer, or as long and whose labels come first |
| SpeakerMapping.MappingSize | backend/classscribe/benchmark/metrics.py:433-455 | as many speakers are matched as the side with fewer labels has |
| SpeakerMapping.AtLeastHalf | backend/classscribe/benchmark/metrics.py:433-455 | no one-to-one mapping makes the matched speakers share more than twice as much, summed over their turns |
| SpeakerMapping.PerfectScoresZero | backend/classscribe/benchmark/metrics.py:198-217 | a hypothesis that is the reference under other names, whatever overlaps in it, agrees with it at every sample, so its rate is zero, and hides nobody |
| SpeakerMapping.SpeakerMapping | backend/classscribe/benchmark/metrics.py:433-455 | the counting loops, the sort and the loop with its two sets return the mapping of the two lists of turns |
| SpeakerMapping.SpeakerErrorRate | backend/classscribe/benchmark/metrics.py:198-217 | the rate under that mapping is zero if and only if the speakers agree at every sample |
| SpeakerMapping.HidesSomeIff | backend/classscribe/benchmark/metrics.py:210-215 | at one sample speakers come out fewer than they are exactly when an unmatched active one bears the name given to another active one |
| SpeakerMapping.NobodyHiddenIff | backend/classscribe/benchmark/metrics.py:198-217 | for all sets of labels: every timing counts every hypothesis speaker at every sample if and only if the hypothesis has no more labels than the reference or shares none with it |
| SpeakerMapping.ZeroCountsSpeakers | backend/classscribe/benchmark/metrics.py:198-217 | with nobody hidden, a rate of zero means as many speakers on both sides at every sample |
| SpeakerMapping.ExtraSpeakerHidden | backend/classscribe/benchmark/metrics.py:198-217 | from the turns: a concrete case in which the fallback label hides a second speaker and every sample agrees |
| Speakers.JaccardError | backend/classscribe/benchmark/metrics.py:219-230 | one minus the number of samples both sides have the speaker at over the number either has, and for a speaker who talks zero exactly when these are the same samples |
| Overlap.TrueOverlapRanges | workers/pyannote/adapter.py:295-308 | a sample is in a range exactly when at least two distinct speakers are active there |
| Overlap.SubtractIsDifference | workers/pyannote/adapter.py:256-273 | the pieces are non-empty and cover exactly the set difference, whatever the exclusions |
| Overlap.SubtractKeepsRuns | workers/pyannote/adapter.py:256-273 | every run of allowed samples lies whole inside one piece |
| Overlap.SubtractRanges | workers/pyannote/adapter.py:256-273 | the nested loops return those pieces |
| Overlap.ChooseSupportSpans | workers/pyannote/adapter.py:276-292 | at most three spans of one to four seconds, each inside one candidate, some span exactly when some candidate lasts a second, and the first pieces of the longest candidates |
| Overlap.SupportsAreLongestPieces | workers/pyannote/adapter.py:276-292 | with the candidates from the longest to the shortest, equally long ones in their order, and each cut into four-second pieces while a second is left, the supports are the first three pieces |
| Overlap.SpeakerSupports | workers/pyannote/adapter.py:229-240 | a speaker's supports lie in that speaker's exclusive time without an overlapped sample, and exist exactly when there is such a clean second |
| Overlap.EmbeddingRecords | workers/pyannote/adapter.py:214-253 | label by label, no record without a vector of finite numbers, else one record per support, with a quality that is positive and full exactly from three seconds on |
| Segmentation.MakeTranscriptChunks | backend/classscribe/audio/segmentation.py:169-253 | raises on illegal policies and on cores that would end before they begin; else, exactly when the loop ends, cores tile the speech, none is empty or over the maximum, none has a mandatory boundary inside, and each cut falls where it must; the last two cores are one exactly when the last is shorter than the minimum, both are within the maximum and no mandatory boundary parts them; with a minimum of one sample there always are chunks |
| Segmentation.MandatoryKept | backend/classscribe/audio/segmentation.py:189-204 | every speaker or language boundary inside the speech ends a core, also after the last cores merge |
| Segmentation.JoinedFinished | backend/classscribe/audio/segmentation.py:233-241 | merging the last two cores keeps all of these promises |
| Segmentation.NextIsGood | backend/classscribe/audio/segmentation.py:196-231 | one cut that advances, under any policy, is within the maximum, past no mandatory boundary, and hard only without a cue in the window |
| Segmentation.NextCutsRight | backend/classscribe/audio/segmentation.py:35-230 | where a core ends, and why: at the first speaker or language boundary within the maximum; else at the end of the speech if that is within it; else at the cue between the minimum and the maximum that no other there is preferred to, speaker changes before pauses before sentence ends before language switches, then the nearer to the target, then the more confident, then the first; and only without a cue at the maximum |
| Segmentation.OrderedCuesStable | backend/classscribe/audio/segmentation.py:182-185 | cues at one sample stay in the order they came in |
| Segmentation.ChunkHears | backend/classscribe/audio/segmentation.py:242-252 | a chunk hears exactly its core and, across a hard cut, the overlap on that side, as far as there is speech |
| Segmentation.BestIsBest | backend/classscribe/audio/segmentation.py:213-220 | no candidate is better than the chosen one by priority, distance from the target and confidence |
| Segmentation.EndsIff | backend/classscribe/audio/segmentation.py:195-231 | the running loop, turn by turn from the start of the speech, comes to its end without an error for all speech and cues if and only if the minimum is at least one sample |
| Segmentation.StuckSpeech | backend/classscribe/audio/segmentation.py:195-231 | for every other policy with a maximum of zero or more, speech and cues on which the loop has not ended after any number of turns |
| Segmentation.KeptAtMostOnce | backend/classscribe/asr/context.py:10-34 | no token is kept by two chunks |
| Segmentation.TokenKeptIffHeard | backend/classscribe/asr/context.py:10-34 | every token with length inside the speech, across any boundaries, has one core that holds its midpoint: that chunk keeps it, and only that one, exactly when it heard all of it |
| Segmentation.StraddlerIsKeptOnce | backend/classscribe/asr/context.py:10-34 | in particular a token across a hard cut, no longer than the context on both sides, is kept by exactly one chunk, the one that holds its midpoint |
| Segmentation.EvidenceIsKeptParts | backend/classscribe/asr/context.py:10-34 | what the evidence of a chunk keeps, with its early return for chunks without context, is the core's share of each kept token, in order |
| Segmentation.KeptPartIsShare | backend/classscribe/asr/context.py:20-30 | a kept token is trimmed to exactly the samples it has in the core, its midpoint among them |
| Segmentation.KeptPartsInOrder | backend/classscribe/asr/context.py:20-30 | what an earlier chunk keeps ends before anything a later one keeps begins |
| Segmentation.EmptyTokenKeptIff | backend/classscribe/asr/context.py:10-34 | a token without length is kept exactly when it is strictly inside the core: at a core's first sample it is dropped |
| Lid.SlidingWindows | backend/classscribe/audio/lid.py:50-73 | windows of one length from the first sample to the last, one step apart as long as that leaves room, and no more of them than it takes |
| Lid.WindowsCover | backend/classscribe/audio/lid.py:63-73 | no sample goes unheard |
| Lid.FirstAgreedMeans | backend/classscribe/audio/lid.py:163-173 | the initial group is the first whose observations all agree reliably on a language, and they agree on no other |
| Lid.NamesMeans | backend/classscribe/audio/lid.py:133-137 | an observation names the language that is likely enough and likelier than every other, of equally likely ones the first in order |
| Lid.InitialMeans | backend/classscribe/audio/lid.py:162-186 | routing begins in the language of the first group that agrees, else in the one with the largest total over the reliable observations, and cannot begin exactly when none is reliable |
| Lid.RecentSilenceMeans | backend/classscribe/audio/lid.py:189-193 | the latest silence point after the last switch and by the observation, or the start of the run |
| Lid.ObserveKeeps | backend/classscribe/audio/lid.py:132-158 | one observation keeps rising boundaries, linked languages and a full group of agreeing observations behind each switch |
| Lid.ObserveAllDecides | backend/classscribe/audio/lid.py:132-158 | at each observation there is a switch exactly when one is due: another language than the one in force has been named by full groups in a row since the last switch, and the latest silence after the last boundary and by this observation, or else the start of the group, lies past that boundary |
| Lid.SortedStably | backend/classscribe/audio/lid.py:122 | observations that begin together stay in the order they came in |
| Lid.SpansRouted | backend/classscribe/audio/lid.py:195-209 | the spans are non-empty, tile the audio, and change language at each boundary |
| Lid.SpansSpeak | backend/classscribe/audio/lid.py:195-209 | at each sample the spans have the language of the last switch by then, or the first language |
| Lid.RoutedIsPersistable | backend/classscribe/audio/persistence.py:81-98 | such spans pass every check that guards storage |
| Lid.Switches | backend/classscribe/audio/lid.py:126-158 | the hysteresis loop with its pending count returns the switches that are due at the observations, no others, and all of them |
| Lid.Route | backend/classscribe/audio/lid.py:94-160 | automatic routing fails exactly on observations past the audio or without reliable ones, and otherwise always stores: the spans tile the audio with changing languages, beginning in the language first settled and switching exactly where full groups of observations say so |
| FrameStream.RunConsumes | workers/firered/adapter.py:387-419 | after any run of whole, failed or cancelled calls, the frames given out are the first windows of the joined audio, and consumed plus pending is what was pushed |
| FrameStream.PushSizesDoNotMatter | workers/firered/adapter.py:387-419 | once a call succeeds, how the audio was cut into pushes and which calls failed leaves no trace, and exactly the frames that fit were given out |
| FrameStream.Stream.StreamVad | workers/firered/adapter.py:387-419 | the frame loop consumes what was completed however the call ends |
| BlockStream.RunAccounts | workers/nemotron/adapter.py:217-274 | every pushed sample is in exactly one block or pending, in order, and the decoded count is that of the blocks, whatever fails |
| BlockStream.PushSizesDoNotMatter | workers/nemotron/adapter.py:217-241 | with no whole block pending, blocks depend only on the joined audio |
| BlockStream.SuccessLeavesNoTrace | workers/nemotron/adapter.py:217-241 | once a push is done before a decode fails, neither the cutting of the audio nor earlier failures leave a trace |
| BlockStream.Stream.PushPcm | workers/nemotron/adapter.py:224-241 | takes consecutive threshold-sized blocks, and on success leaves less than one pending |
| BlockStream.Stream.FlushFast | workers/nemotron/adapter.py:249-264 | the rest, padded with silence to a block, is counted unpadded and nothing stays pending |
| Redecoding.RunSpaces | workers/qwen/adapter.py:105-125 | successive decoded lengths grow by at least the larger of the base and half the previous length, up to four seconds |
| Redecoding.PushDecodesIff | workers/qwen/adapter.py:105-125 | a push decodes all samples exactly when at least the base is new, and half of what was decoded or four seconds, and the decode does not fail |
| Redecoding.KeepsUp | workers/qwen/adapter.py:105-125 | after any run that ends with a push that did not fail, the interim result covers all samples, or not enough is new |
| Redecoding.InterimCostIsLinear | workers/qwen/adapter.py:105-125 | up to eight seconds all interim decodes together cost at most three times the audio plus one sample each |
| Redecoding.LateDecodesAreRare | workers/qwen/adapter.py:105-125 | past eight seconds decodes are at least four seconds apart |
| Redecoding.InterimCostIsQuadratic | workers/qwen/adapter.py:105-125 | all interim decodes of any run together cost at most three times the audio, one sample each, and the square of the audio over eight seconds |
| Redecoding.Stream.StreamPush | workers/qwen/adapter.py:98-125 | decodes exactly when enough is new, and records only a decode that succeeded |
| Redecoding.Stream.StreamFlush | workers/qwen/adapter.py:127-158 | the final result covers every sample, even when an interim result is reused |

## Left out

- Floating-point rounding: calibration values, scores, probabilities, error rates and confidences are exact reals.
- Platt scaling, Brier scores, ranking weights and the other benchmark metrics: mostly one formula each.
- Unicode tables, regular-expression engines and UTF-16 indexing: both readers use the same abstract character classes over the same positions; a result that needs to know that blanks and line breaks are space, or that marks or letters are not, says so.
- The separators the TypeScript reader adds between sources for display.
- React, the query cache and browser storage around autosave; error messages and the job id of a draft. A draft restored from storage starts as failed, as in the source.
- The autosave server beyond accepting a PATCH exactly when its version is current, then raising the version.
- Autosave.Client.FlushTranscriptSave: takes the draft's generation a few statements earlier than the source does; nothing can happen in between.
- Database sessions around the edit history: the log order, fresh event identifiers, and the version column that rises with every changed row are taken as given, and every writer of a layer is assumed to log its edit.
- The provenance, spans and confidence that language routing reports beside each language.
- The mean of the Jaccard errors over speakers, the speaker-attributed word error and the count of cross-window switches.
- The text side of contextual evidence: only which token spans a core keeps is modelled, not how their text is joined.
- Structure windows, boundary deduplication, embedding matching, bracket counting, segment split and merge, and queue reordering: each is a short loop with easy properties.
- The remaining checks of timing validation and of gold manifests.
- Overlap.EmbeddingRecords: does not round the signal quality to six decimals.
- Model calls, decoders, locks and tokenizers: a call into a model is a parameter that says whether it completes.
- FrameStream.Stream.StreamVad: the probabilities returned for the latest frame are not modelled.
- Audio is modelled in whole samples, as the worker protocol checks before a push reaches an adapter.
- HTTP, uploads, file handling, subprocesses, configuration, credentials and redaction.
