# SendRec: verified model of video editing, transcripts, rate limiting and job control

SendRec is a self-hosted video-messaging server written in Go. This project models the parts of
it that are hardest to get right by reading, and proves what they are for.

**Removing segments.** A request carries up to 200 cuts. The server validates them, prints them to
the millisecond into one ffmpeg `-filter_complex` string (a `select` predicate, a `setpts` time
shift, and an `asegment`/`concat` audio graph) and runs it. `Cuts` has the validation, the rounding
and the stored duration; `BalancedSum` the balanced `+` trees; `VideoFilter` and `AudioGraph` the two
halves of the string and their meaning. `FilterExpr`, `VideoReader` and `AudioText` are readers written
independently of the printers: a recursive-descent parser with the usual precedence, a reader of
filter chains with quoting, and one of filter graphs. `SegmentRemoval` joins them: for every list the validation accepts, the string
that is printed *reads back* as an edit that deletes exactly those intervals, closes the gaps, and
keeps sound and picture in step. `Silence` reads the silence detector's log, which produces such lists.

**Transcripts.** `VttTime`, `Vtt`, `VttRoundTrip`, `VttExact`, `VttFile` and `VttMerge`: printing and parsing WebVTT
(sections 4.1 and 6.3 of the W3C WebVTT specification) undo each other, and merging cues is a
grouping that loses nothing. `VttExact` says exactly which cues survive printing and parsing, and
`VttFile` that files from other programs are read as what they say.

**Rate limiting.** `RateLimit`: the token-bucket class and its whole runs. Forgetting idle visitors
changes no answer, no window admits more than burst + rate * length, and a request is admitted
exactly when that bound leaves room for it. The condition rate * 600 >= burst is necessary as well as sufficient; the
limiters of `internal/server/server.go` (0.5/5, 2/10, 0.2/3, 5/20) all meet it.

**Job life cycle.** `Lifecycle` is a timed step machine over the video rows: each SQL statement is one
atomic step, requests, jobs, sweeps and deletions interleave freely, any set of jobs may vanish
at any time, and whether jobs keep their deadlines is a parameter. Beside what must never happen it
is proved what each step achieves and what it leaves alone. `RetryBudget` is the same for the transcoding attempt counter. `EncoderGate` has the
encoder semaphore and its replacement while encodes run.

**Truncation.** `Utf8`: cutting names and error messages on bytes, against sections 3 and 4 of RFC 3629.

`Options`, `Bounds`, `Text` and `Decimal` hold shared helpers. Code that updates state step by step is modelled by
methods and classes proved against specification functions; the theorems are about those functions.
`dafny verify dfyconfig.toml` verifies the whole project.

## Model

| member | source | states |
|---|---|---|
| `SegmentRemoval.AcceptedEditIsFaithful` | internal/video/remove_segments.go:36-104 | for every cut list the handler accepts, media of any real length starting at any timestamp, and every time t in it: the printed filter_complex reads back as a chain from [0:v] to [v] that drops the frame of t iff t is in a closed cut and otherwise shows it after exactly the kept time before t, then only fixes 60 frames a second and a size of at most 1920 by 1080 and at most the source's; its sound starts at zero, is as long as the kept part of the source, plays nothing of a cut and all else at that same moment; and more than half a millisecond from the requested ends, a printed cut is a requested one |
| `SegmentRemoval.OrderedEditIsFaithful` | internal/video/remove_segments.go:189-213 | the same chain and sound for every weakly ordered list of printed cuts, including none, touching cuts, a cut at zero, cuts rounded to nothing and cuts past the end of the media, with and without audio |
| `SegmentRemoval.EditRead` | internal/video/remove_segments.go:194-208 | the whole argument reads back, filter by filter and link by link, as the five filters of the picture between [0:v] and [v] and the audio graph; an added filter or another link would not |
| `SegmentRemoval.VideoRead` | internal/video/remove_segments.go:199 | the video chain is read to its end by an independent reader: rebase, select, shift, frame rate 60, and one scale with its two limits and two options |
| `SegmentRemoval.ShownAt` | internal/video/remove_segments.go:193-199 | run filter by filter on a frame, the chain drops it exactly in a cut and else gives it the kept time before it, whatever timestamp the link starts at |
| `SegmentRemoval.FiltersFinished` | internal/video/remove_segments.go:199 | of the filters only select drops frames and only the two setpts set times; the rate is 60 and the size limits are min(1920, width) and min(1080, height) |
| `SegmentRemoval.PrintedAsRequested` | internal/video/remove_segments.go:131 | more than half a millisecond from every requested end, being in a printed cut is being in a requested one |
| `SegmentRemoval.BuildFilterComplex` | internal/video/remove_segments.go:189-211 | the loops build the text the theorems above are about; the audio half is present iff the input has audio |
| `Cuts.Validate` | internal/video/remove_segments.go:39-104 | the answer given is deserved: each refusal names the first fault in the order the checks run, and acceptance means 1 to 200 well-shaped cuts, every pair disjoint and in order, inside the video, leaving at least one second |
| `Cuts.DeservesOne` | internal/video/remove_segments.go:39-104 | a request and a row deserve at most one answer, so acceptance happens exactly when those conditions hold |
| `Cuts.CheckShapes` | internal/video/remove_segments.go:48-68 | the two loops over the cuts alone: going on means every pair, not only neighbours, is disjoint and in order |
| `Cuts.AdjacentImpliesDisjoint` | internal/video/remove_segments.go:59-68 | checking neighbours is enough for all pairs, because every cut has positive length |
| `Cuts.RemovedTime` | internal/video/remove_segments.go:96-99 | the summing loop gives the total length of the cuts |
| `Cuts.AcceptedIsOrdered` | internal/video/remove_segments.go:131 | rounding to milliseconds keeps an accepted list ordered and within the video |
| `Cuts.RoundingDrift` | internal/video/remove_segments.go:131 | printing n cuts with three decimals moves their total length by at most n milliseconds either way |
| `Cuts.NewDuration` | internal/video/remove_segments.go:297-301 | the duration written back is what is left, truncated to whole seconds |
| `Cuts.StoredDurationDrift` | internal/video/remove_segments.go:297-301 | what the printed filter keeps differs from the stored duration by at least -n ms and less than 1 s + n ms, and the stored duration is at least one second |
| `BalancedSum.BalancedMeansFlatSum` | internal/video/remove_segments.go:140-149 | the printed sum of any number of terms parses, and its value is that of the terms added in order |
| `BalancedSum.BalancedReads` | internal/video/remove_segments.go:140-149 | spliced into any surrounding expression the sum is one operand, also in the unparenthesised one-term case |
| `BalancedSum.TreeDepth` | internal/video/remove_segments.go:136-149 | n terms of equal nesting nest exactly ceil(log2 n) deeper |
| `BalancedSum.CeilLog2Exact` | internal/video/remove_segments.go:136-139 | the depth function is the least k with n <= 2^k |
| `BalancedSum.ChainNestsLinearly` | internal/video/remove_segments.go:136-139 | the flat a+b+c form the comment warns of nests one level per term and passes 100 levels at 102 terms |
| `VideoFilter.BuildSegmentFilter` | internal/video/remove_segments.go:128-134 | the loop prints one between term per cut, in order, joined by the balanced sum |
| `VideoFilter.BuildVideoFilter` | internal/video/remove_segments.go:190-199 | the loops print the select and shift expressions of all cuts into the video chain |
| `VideoFilter.RemovedTerms` | internal/video/remove_segments.go:191-194 | the loop prints one elapsed-cut term per cut, in order, joined by the balanced sum |
| `VideoFilter.SplicedAsIntended` | internal/video/remove_segments.go:199 | inside not(...) and between PTS- and /TB the sums keep the intended precedence, for zero, one and more cuts |
| `VideoFilter.SelectKeepsOutside` | internal/video/remove_segments.go:128-134 | the parsed select expression is non-zero exactly outside every closed cut |
| `VideoFilter.ShiftClosesGaps` | internal/video/remove_segments.go:191-199 | the parsed setpts expression moves a frame back by the length of the cuts that have ended |
| `VideoFilter.FrameLandsAtKeptTime` | internal/video/remove_segments.go:196-199 | that shift is a measure: a kept frame lands at the total length of kept pieces before it |
| `VideoFilter.FramesStayInOrder` | internal/video/remove_segments.go:196-199 | kept frames stay strictly in order, and the time between two shrinks by exactly the cuts between them |
| `VideoFilter.FrameLandsInRange` | internal/video/remove_segments.go:196-199 | every kept frame lands between zero and the edited length |
| `VideoFilter.NestingBounded` | internal/video/remove_segments.go:136-149 | for every list within the limit of 200 cuts the complete expressions nest at most 10 and 12 levels, against ffmpeg's 100 |
| `AudioGraph.BuildSegmentAudioFilter` | internal/video/remove_segments.go:167-187 | the loops print the graph that the audio theorems are about |
| `AudioGraph.Timestamps` | internal/video/remove_segments.go:168-171 | the split points are the two ends of every cut, in order |
| `AudioGraph.RouteSegments` | internal/video/remove_segments.go:172-184 | for n cuts, 2n+1 outputs, each routed once: even ones rebased and kept, odd ones sunk |
| `AudioGraph.GraphDeletesCuts` | internal/video/remove_segments.go:164-187 | run on audio of any length, the graph produces every link in one place and consumes it in one place, concat's n is the number of kept pieces, only [a] is left, and it carries the source with exactly the cuts taken out |
| `AudioGraph.AudioKeepsOutside` | internal/video/remove_segments.go:164-187 | a sample is played exactly when its time is in no cut, the end of a cut excluded |
| `AudioGraph.SoundFollowsPicture` | internal/video/remove_segments.go:196-199 | a frame that is kept and the sample of the same source time get the same output time |
| `AudioGraph.HeardAtKeptTime` | internal/video/remove_segments.go:164-187 | sound inside a cut is never heard; sound outside one, the very end of a cut included, is heard after exactly the kept time before it |
| `AudioGraph.KeptLength` | internal/video/remove_segments.go:164-187 | the edited audio is as long as the kept part of the source, which is the source less the printed cuts when these end within it |
| `AudioText.GraphRead` | internal/video/remove_segments.go:185-186 | every graph reads back from its printed text, so link names never collide and no two graphs print alike |
| `Silence.ParseSilenceDetectOutput` | internal/video/silence.go:116-143 | an end closes the latest open start; unmatched ends, repeated starts and all other lines are passed over |
| `Silence.ClampSegments` | internal/video/silence.go:87-100 | the loop clamps to the video and drops what starts beyond it or is shorter than a tenth of a second |
| `Silence.ClampKeepsExactly` | internal/video/silence.go:87-100 | a segment is in the answer if and only if it is a found one that starts within the video, cut to the video, with at least a tenth of a second left |
| `Silence.LogRoundTrip` | internal/video/silence.go:111-143 | any log whose lines are starts and ends with something around the marker, or hold no marker, is parsed to exactly the silences it tells of, with the numbers as written; a start given again replaces the one before, an end without a start is passed over |
| `Silence.LineRead` | internal/video/silence.go:123-138 | each line is understood as what it says: the marker is found wherever it stands, blanks are skipped, the number ends where its digits end |
| `Silence.DecimalRead` | internal/video/silence.go:124 | digits, a point and k decimals are read as the number they write |
| `Silence.WholeRead` | internal/video/silence.go:124 | digits without a point are read as their integer |
| `Silence.PairInOrder` | internal/video/silence.go:116-143 | from a log whose times never go back the pairs are ordered and disjoint, whatever else the log holds |
| `Silence.ClampInOrder` | internal/video/silence.go:87-100 | clamping keeps order and disjointness, makes every segment non-empty and ends all of them within the video |
| `Silence.DetectedFeedsRemoval` | internal/video/silence.go:87 | detected segments meet every condition remove-segments puts on cuts, and are accepted exactly when their number and the remaining length allow it |
| `VttTime.ParseFormat` | internal/video/transcribe.go:85-97 | a printed time reads back to the same millisecond, however many hours it has |
| `VttTime.FormatParse` | internal/video/vtt_parse.go:105-135 | printing what was read from canonical text gives the text back |
| `VttTime.FormatCanonical` | internal/video/transcribe.go:89-96 | every printed time is canonical: two digits of hours or more, minutes and seconds below sixty |
| `VttTime.FormatNormalises` | internal/video/vtt_parse.go:128-134 | tolerated text with minutes or seconds past 59 is brought into canonical form without moving the instant |
| `VttTime.ParseExactly` | internal/video/vtt_parse.go:105-135 | text is read as t milliseconds if and only if it is two or three colon-separated non-negative integers, a point and three characters of milliseconds, and t is their sum with weights 3600000, 60000, 1000 and 1; out-of-range fields and a signed milliseconds field included |
| `Vtt.SegmentsToVtt` | internal/video/transcribe.go:99-116 | the printing loop gives the signature and one blank-line-separated cue per segment, in order |
| `Vtt.WriteCue` | internal/video/transcribe.go:103-113 | one round of the loop appends exactly one cue: timing line, voice tag only if there is a speaker, text |
| `Vtt.ParseVtt` | internal/video/vtt_parse.go:20-85 | the parsing loop, with its three error answers, keeps the cues of the blocks that yield one, in file order |
| `VttRoundTrip.ParsePrinted` | internal/video/vtt_parse.go:20-85 | every non-empty list of storable cues is parsed back from its printed form unchanged: times, text, speakers and order |
| `VttRoundTrip.ParsePrintedPlain` | internal/video/vtt_parse.go:20-85 | the same for transcripts free of markup characters, for any entity decoder that leaves text without ampersands alone |
| `VttFile.DecoratedFileRead` | internal/video/vtt_parse.go:17-85 | files with identifier lines, cue settings, NOTE, STYLE and REGION blocks, blocks without timing, a title or header lines, any blanks around the arrow, times with or without hours, LF, CRLF or CR line ends, a byte-order mark, speakers in a tag with or without its end or before a colon, and text of several lines are read as exactly what their cues say, in order |
| `VttFile.CueRead` | internal/video/vtt_parse.go:48-78 | a cue is found on its own or below an identifier, with its times, its speaker and its words |
| `VttFile.RefusedExactly` | internal/video/vtt_parse.go:27-34 | a file is refused as unsigned iff what follows its leading blanks is not the signature, and as malformed iff something other than white space follows that at once |
| `VttFile.MarkupVanishes` | internal/video/vtt_parse.go:13 | stripping takes out opening, closing and time tags anywhere in the words, and nothing else |
| `VttFile.EncodedMarkupVanishes` | internal/video/vtt_parse.go:67-71 | entities are decoded before tags are stripped, so markup spelled with them goes too |
| `VttFile.PrintedPlainly` | internal/video/transcribe.go:99-116 | what the program prints is the plainest such file: bare signature, two-digit clocks, one arrow between single blanks, the speaker in a tag |
| `VttExact.ComesBackExactly` | internal/video/vtt_parse.go:20-85 | a transcript without ampersands comes back from its printed form, cue for cue, if and only if it has a cue and in every cue the text is trimmed, has no blank line and no carriage return and is left alone by tag stripping, and the speaker is trimmed and free of brackets and line breaks, or empty with a first line that begins with no name |
| `VttExact.NoteBecomesSpeaker` | internal/video/vtt_parse.go:157-171 | text "note: hi" without a speaker comes back as "hi" spoken by "note" |
| `VttExact.MergeMakesSpeaker` | internal/video/vtt_parse.go:182-195 | two cues that come back, merged, make one that does not |
| `VttRoundTrip.CueParses` | internal/video/vtt_parse.go:39-78 | one printed block parses to its cue, also when the text has several lines |
| `VttRoundTrip.SpeakerRead` | internal/video/vtt_parse.go:150-172 | the speaker of a printed cue, or its absence, is recovered from the payload and the text is left whole |
| `VttRoundTrip.TimingLineReads` | internal/video/vtt_parse.go:87-103 | a printed timing line reads back to its two times |
| `VttMerge.MergeSegments` | internal/video/vtt_parse.go:178-197 | the accumulator loop with its deferred joins refines the plain merge that grows one cue at a time |
| `VttMerge.MergeIdempotent` | internal/video/vtt_parse.go:174-197 | no two neighbours of the result have one speaker and at most two seconds between them, merging again changes nothing, and a list is left alone exactly when that already holds of it |
| `VttMerge.MergeGroups` | internal/video/vtt_parse.go:174-197 | the merged cues stand for consecutive groups that make up the input, each of one speaker and without a gap over two seconds, from the first start to the maximum of the ends |
| `VttMerge.MergeKeepsText` | internal/video/vtt_parse.go:193-195 | all texts joined by spaces are the same string before and after |
| `RateLimit.Limiter.constructor` | internal/ratelimit/ratelimit.go:29-37 | a new limiter knows no visitor |
| `RateLimit.Limiter.Allow` | internal/ratelimit/ratelimit.go:39-62 | answer and complete new table for every visitor, known or not, with two separate clock readings |
| `RateLimit.Limiter.Cleanup` | internal/ratelimit/ratelimit.go:64-75 | one pass, in any order and with a clock reading per visitor, removes exactly those idle for more than ten minutes |
| `RateLimit.ForgettingIsInvisible` | internal/ratelimit/ratelimit.go:64-75 | if ten minutes refill the bucket, a run with cleanup at any times gives every request the answer of a limiter that never forgets |
| `RateLimit.WindowBound` | internal/ratelimit/ratelimit.go:39-62 | in every run, cleanup included, and every window, one visitor is admitted at most burst + rate * length times |
| `RateLimit.AdmitsExactlyWhatFits` | internal/ratelimit/ratelimit.go:49-61 | in every run, whatever the two clock readings, a request is admitted if and only if every window that ends with it stays within burst + rate * length, the time that passed inside the visitor's own requests not counted: nothing that fits is refused |
| `RateLimit.SpendAccounted` | internal/ratelimit/ratelimit.go:49-61 | after every request the bucket holds exactly what the tightest window leaves |
| `RateLimit.NothingLost` | internal/ratelimit/ratelimit.go:49-50 | when the two readings of each request agree, no time is lost and the bound is the plain one |
| `RateLimit.InvisibleExactlyWhenRefilled` | internal/ratelimit/ratelimit.go:69-71 | rate * 600 >= burst is necessary and sufficient both for invisible cleanup and for the window bound in all runs |
| `RateLimit.SweepShows` | internal/ratelimit/ratelimit.go:69-71 | otherwise two bursts around one cleanup break both |
| `Lifecycle.MutualExclusion` | internal/video/jobs.go:66-70 | when jobs end by their deadlines and start delay, deadline and recovery fit into 15 minutes, every reachable state has at most one uncommitted editing job per video, whose row is processing since that job's claim, or deleted |
| `Lifecycle.MutualExclusionExactly` | internal/video/stuck_processing.go:11-15 | that holds exactly when jobs end in time and start at most 295 s after their claim (ten minutes and five seconds before the quarter of an hour); one millisecond more, or a job that may overrun, and two jobs on one video are reachable |
| `Lifecycle.OwnedStep` | internal/video/video_crud.go:524-541 | the ownership invariant survives every single step: claims, starts, failures, fallbacks, commits, losses, deletions, media writes, purges, sweeps and the passing of time |
| `Lifecycle.OnTimeStep` | internal/video/remove_segments.go:117-121 | a bookkeeping step, not a result about the jobs: taking it that each phase ends when it is due, the allowances for start, deadline and recovery add up from the claim on |
| `Lifecycle.NeverStranded` | internal/video/stuck_processing.go:41-46 | in every reachable state, whatever crashed and whether or not jobs keep their deadlines, a processing row has a start time, at most 15 minutes and one sweep interval old |
| `Lifecycle.FreshStep` | internal/video/video_crud.go:359-365 | every write that enters processing sets the start time, and no write leaves a processing row without it |
| `Lifecycle.StatusChangesOnlyFor` | internal/video/cleanup.go:64-68 | in every reachable state each change of a row's status has its one reason: Ready is left only by a claim or a delete, a row becomes deleted only by a delete or, from uploading, at over 24 hours, processing ends only by its job, by a sweep at over 15 minutes, or by a delete |
| `Lifecycle.EndedJobReleasesRow` | internal/video/trim.go:81-90 | a fallback or commit leaves the row ready with no start time and drops a composite's webcam; only a fallback on a deleted row leaves it as it is |
| `Lifecycle.SweepsFinish` | internal/video/stuck_processing.go:41-46 | after a sweep no stale row is left, after the abandoning of uploads no upload over 24 hours, and all other rows are untouched |
| `Lifecycle.ClaimsAnswered` | internal/video/remove_segments.go:106-121 | whatever puts a row into processing records the time and leaves a new job on that video |
| `Lifecycle.PhasesTimed` | internal/video/remove_segments.go:117-118 | a started job has ten minutes and a failed one five seconds, neither step touches a row, and a job that has failed can no longer commit |
| `Lifecycle.NothingElseChanges` | internal/video/video_crud.go:524-527 | a step changes only the row it is about, only the encoders' writes change their columns, and the upload time never changes |
| `Lifecycle.UploadBegins` | internal/video/cleanup.go:61-68 | a new row is an upload dated by its creation, with no start time, so its 24 hours count from there |
| `Lifecycle.ReadyCanBeEdited` | internal/video/video_crud.go:524-541 | a ready video can be trimmed or cut at any time, whatever else is going on, and be ready again |
| `Lifecycle.UploadCanBeFinalized` | internal/video/video_crud.go:354-365 | an upload can be finalized to ready, or with a webcam to processing with a composite job |
| `Lifecycle.AnyVideoCanBeDeleted` | internal/video/video_crud.go:546-565 | every video that is not deleted can be deleted at any time, and its jobs go on |
| `Lifecycle.EveryKindCompletes` | internal/video/jobs.go:61-70 | trims, removals and composites can each be reached running, and committed |
| `Lifecycle.TwoJobsWithoutSlack` | internal/video/stuck_processing.go:41-46 | a concrete run in which the sweep releases a row whose job is still alive |
| `Lifecycle.DeletionFinalExactly` | internal/video/video_crud.go:556-564 | a deleted row stays deleted in every continuation exactly when no job that can still commit is live on it; the commits of trim.go:133, composite.go:219 and remove_segments.go:304 have no status guard |
| `Lifecycle.DeletionUndone` | internal/video/trim.go:131-134 | such a state is reachable: from a fresh start, a video deleted during its trim is ready again once the trim commits |
| `Lifecycle.GoneStep` | internal/video/cleanup.go:64-68 | no finalize, claim, fallback, sweep, media write, purge or stale-upload step revives such a row |
| `RetryBudget.FailuresBounded` | internal/video/transcode.go:141-149 | with at most k runs in flight on a video, at most 4 + k of them ever record a failure |
| `RetryBudget.BudgetExactly` | internal/video/transcode.go:102-111 | 4 + k is attained, by transcoding and by normalizing, so it is the exact limit for every k |
| `RetryBudget.NoRunAfterSuccess` | internal/video/transcode.go:198-211 | after a success write no run starts on that video again, although the counter returns to zero |
| `RetryBudget.PermanentFailureIsFinal` | internal/video/transcode.go:87-110 | after a permanent failure no run ever begins on the video again, whatever the runs in flight still do |
| `RetryBudget.CompatibleIsFinal` | internal/video/normalize.go:192-197 | nor after a run has found the video compatible and marked it |
| `RetryBudget.NewVideoStarts` | internal/video/transcode.go:141-149 | a new video is taken up by transcoding if it is webm and by normalizing otherwise, and by nothing else |
| `RetryBudget.RetriedAfterFailure` | internal/video/transcode.go:102-111 | after up to four ordinary failures it is taken up again, for either kind |
| `RetryBudget.ChangesOnlyFor` | internal/video/transcode.go:102-131 | the counter moves only by a recorded failure, one at a time unless permanent, and by the clearing after a success |
| `RetryBudget.BoundedStep` | internal/video/normalize.go:152-166 | the budget invariant survives every interleaving of begins, failures, disappearances, marks, success writes and counter resets |
| `EncoderGate.Gate.constructor` | internal/video/encoder_slots.go:30-37 | a limit below one becomes one |
| `EncoderGate.Encoders.Acquire` | internal/video/encoder_slots.go:41-63 | a caller, even one waiting on a replaced gate, gets one unreturned ticket of that very gate or gives up with its context; never beyond the limit, and each gate's tokens keep equal to its holders |
| `EncoderGate.Encoders.Release` | internal/video/encoder_slots.go:56-62 | the slot goes back to the gate it came from, which has a token to give; a repeated release does nothing |
| `EncoderGate.Encoders.SetConcurrency` | internal/video/encoder_slots.go:83-91 | a fresh empty gate becomes current and no ticket or older gate changes |
| `EncoderGate.RunningBounded` | internal/video/encoder_slots.go:83-91 | however often the limit was replaced, running encodes are at most the sum of the limits of the gates that still have holders |
| `EncoderGate.RunningWithinLimit` | internal/video/encoder_slots.go:17-28 | without a replacement the limit itself is the bound |
| `Utf8.ClampName` | internal/sso/handler.go:69-78 | a long name becomes its longest valid prefix of at most 100 bytes, which for a valid name has at least 97; a short name is untouched |
| `Utf8.StoredMessage` | internal/video/transcode.go:92-100 | for any bytes the stored message is valid UTF-8 without NUL and at most 2000 bytes, and is the first 2000 bytes with only broken bytes and NULs dropped; a clean message is kept, or cut to a prefix of at least 1997 bytes |
| `Utf8.ValidExactly` | internal/sso/handler.go:74 | the validity test accepts exactly the encodings of sequences of Unicode scalar values, as RFC 3629 encodes them |
| `Utf8.BoundaryNear` | internal/sso/handler.go:73-76 | valid text has a character boundary within three bytes before any point |
| `Utf8.CutLeavesPrefix` | internal/video/transcode.go:96-100 | cutting valid text anywhere and dropping what is broken leaves a prefix at most three bytes shorter than the cut |
| `Utf8.ValidPrefixKept` | internal/video/transcode.go:100 | valid text in front of broken bytes is never lost or changed by the repair |
| `Utf8.DropNulValid` | internal/video/transcode.go:100 | taking NULs out of valid text leaves valid text |

## Left out

- SegmentRemoval.AcceptedEditIsFaithful: cuts are exact reals, not 64-bit floats. Which frames `fps=60` repeats or leaves out, and the final size after keeping the aspect ratio and even sides, are not computed; the codec arguments that follow the filter are not modelled. ffmpeg's own parser is represented by the readers in FilterExpr, VideoReader, AudioText and SegmentRemoval.
- AudioGraph.GraphDeletesCuts: asegment splits at exact times here; the rounding of a boundary to the nearest sample is not modelled. At the very instant a cut ends the picture is dropped (between is closed) and the sound is kept.
- Cuts.StoredDurationDrift: compares the stored column with the printed filter; that the stored object and the column agree is false when the row is read before the claim and changes in between, or when the commit is lost after the upload.
- Cuts.Validate: JSON decoding, the organisation filter in the query, and the claim itself (see Lifecycle.Claim) are not part of it; a database error and a missing row are one case, as in the handler.
- Silence.ParseSilenceDetectOutput: numbers are exact reals, without the overflow and rounding of 64-bit floats.
- VttTime.ParseFormat: times are whole milliseconds up to the 64-bit range, not float seconds; rounding to the nearest millisecond before printing is outside.
- VttFile.DecoratedFileRead: one kind of line end per file; a name before a colon holds no colon itself; a block without timing is one without any '>'.
- Vtt.ParseVtt: characters are Unicode scalar values (invalid UTF-8 is outside), and html.UnescapeString is a parameter. Parsing arbitrary files is not idempotent: entities and tags are removed in one pass.
- VttExact.ComesBackExactly: ampersands are excluded, because what a decoder does to them is not part of the model; with them VttRoundTrip.ParsePrinted gives a sufficient condition.
- RateLimit.Limiter.Allow: tokens and times are exact reals; the mutex makes each call one step; the goroutine that sleeps between cleanups appears as cleanup at any time.
- Lifecycle.MutualExclusion: the database clock and the process clock are taken to agree. A failed database write is a lost job. Processing done after the commit (thumbnail, transcription) does not touch the status.
- Lifecycle.NeverStranded: sweeps are taken to happen at least every given interval, across restarts.
- RetryBudget.FailuresBounded: every recorded failure is taken to reach the row; one lost with an expired context is not counted.
- EncoderGate.Encoders.Acquire: a channel operation is one step, waiting is not represented beyond its two outcomes, and the release function is not called twice at the same moment.
- Utf8.StoredMessage: whether the message marks a permanent failure is a substring test and not modelled; it is the `permanent` flag of RetryBudget.
- Trim and composite arguments, probing, normalisation thresholds, thumbnails, transcription, summaries and documents: they compute argument lists or call other programs.
- HTTP, JSON, authentication, single sign-on, storage, webhooks, e-mail, billing, folders, tags, playlists, branding, analytics: mostly plain reads and writes of rows.
