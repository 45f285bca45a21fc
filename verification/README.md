# agent-media, verified

A Dafny model of the parts of agent-media that keep a promise over every input, every run or every
interleaving, and proofs of those promises. It covers nine pieces:

- **Ed25519** (`_ed25519.py`). `Ed25519.dfy` is the code: points in extended coordinates,
  double-and-add, the square root, the point codec, `sign` and `verify`. `ExtendedCoordinates.dfy`
  shows that its arithmetic is that of the affine curve of `Edwards.dfy`, `PointCodec.dfy` that the
  codec accepts each curve point in one form only, `Signatures.dfy` what a key and a signature are,
  what `verify` means and that it accepts every signature. The number theory they need (Fermat, the square root of -1, the candidate
  root) is proved in `NumberTheory.dfy`. Four facts are named and assumed where a lemma requires
  them: P is prime, d is no square, the curve's addition is associative, the base point has order Q.
  SHA-512 is any function.
- **The call guard** (`call_guard.py`). `Debounce.dfy`: the two debounces over any trace of ticks.
  `CallGuard.dfy`: the loop and what it does to sockets that may be absent, unreadable or refusing.
  `Episodes.dfy`: what that amounts to over whole runs, said by the log of what was read and
  written. `Engage.dfy`: what is paused, lowered and begun when. `Volumes.dfy`: what that leaves of a
  volume. `Claim.dfy`: the claim's heartbeat and its
  releases as interleaved thread steps against a server. `MicSource.dfy`: when the companion app is
  knocked at.
- **Transcript folds** (`harnesses.py`): `GeminiFold.dfy`, with what each line does in
  `GeminiLines.dfy`; `GrokFold.dfy`, with the whole result by the lines alone in `GrokTranscript.dfy`.
- **The growing library item** (`book_tracks.py`): `BookTracks.dfy` (runs of the export, and the
  order names sort in), `Exported.dfy` (what a run leaves, by its turns), `Chapters.dfy`, `Archive.dfy` (the sweep).
- **The lookup worker** (`deploy/lookup/src/index.ts`): `Lookup.dfy` (the register), `Base32.dfy`.
- **CDATA printing** (`feed.py`): `Feed.dfy`.
- **Documents as speech** (`docs.py`): `Docs.dfy` (paragraphs and sections), `Markdown.dfy`,
  `Org.dfy` (the two projections), `Speech.dfy` (what is synthesised of a source), `Timeline.dfy`
  (the rendered clock).
- **The busy/free answer** (`free.py`): `Free.dfy`. **The catch-up watcher** (`catchup.py`):
  `Catchup.dfy`.

Code that changes things step by step is a method or a class here, proved equal to a function of its
inputs or of its old state; the promises are lemmas about that function. The clock, the network,
the disk and the other programs are parameters: what they answered is an input of each step.
Automatic induction is off in every lemma.

Results where the code does not do what one would expect, each with when it does:

- A clip that cannot be placed cuts its turn short. The comment at `book_tracks.py:436-438` says that
  it stops the run; the code stops its turn only, and the next turn takes the number
  (`BookTracks.TurnIsCutShort`). A turn is written whole exactly when each of its clips is in the
  folder under its name or can be placed (`BookTracks.WholeTurn`). What a run left out is lost for
  good, whatever runs follow, exactly when that run wrote its manifest, which it does when it added
  a file or there was none before (`BookTracks.CutForGood`). Where it did not, as after a run that
  was killed before writing, a run that can place everything writes the turn whole
  (`BookTracks.CutIsMended`, and `BookTracks.CutAndMended` for an input).
- `export_session` called twice at once may add tracks the second time, when two turns have the same
  time (`BookTracks.SecondRunAdds`). It does exactly when the first run wrote its manifest, some turn
  whose first clip would not go has the time of an earlier turn with audio to write, and behind it a
  turn that is reached has a clip that can be placed, those before it being there
  (`BookTracks.SecondRunExactly`).
- Names sort in playing order up to 9999 tracks and not from 10000 on (`BookTracks.SortsUpTo9999`).
- The comment at `call_guard.py:908-909` says that at the defaults two posts of the input claim can be
  lost before the floor frees. One can, if requests take less than five seconds, and two cannot,
  however fast they are (`Claim.DefaultsLoseOne`). In general n in a row can be lost exactly when
  n + 1 intervals and n + 2 requests fit into the time to live (`Claim.ClaimedExactly`).
- A stopped guard can leave a claim behind, until its time to live is over: a release made stale by
  a new start may post again after that start's own stop (`Claim.StaleReleaseClaimsAgain`), and a
  worker may outlive its join (`Claim.WorkerOutlivesItsJoin`). `Claim.StoppedIsSilent` says exactly
  when: a stopped guard that is reached in any way never posts again, and its claim ends within the
  time to live, if and only if no worker is sending, no release is to post again, and none that
  deletes, or is yet to look again, is of an older stop.
- A socket that is gone when an episode ends, or refuses the restore, keeps the lowered volume for
  good: the guard forgets what the volume was, and the next episode takes the lowered one for the
  original (`Volumes.BaselineIsLost`). Between episodes a volume that nobody else changes is the one
  there was at first exactly as long as no episode that lowered it has ended like that
  (`Volumes.VolumeBetween`).
- An archive sweep whose patch fails has still written its record, and no later sweep archives that
  conversation until it has another turn (`Archive.FailedPatchIsForgotten`). So a conversation
  without the tag is archived exactly when the patch of the first sweep that tries lands, where one
  with a record from before its last turn first loses that record to a sweep, and one on record at
  its last turn is never tried (`Archive.ArchivedExactly`); and one with the tag loses it exactly
  when it had a turn since its record and the patch of the next sweep lands, and stays without it
  until it is archived again (`Archive.BroughtBackExactly`).

The lookup worker rounds its times to the millisecond. With its own clock, which counts
milliseconds, the window of an hour and the gap of five seconds are exact
(`Lookup.ThirtyPerHourExactly`, `Lookup.FiveSecondsApartExactly`); with any clock they are up to
half a millisecond (`Lookup.ThirtyPerHour`, `Lookup.FiveSecondsApart`).

Lemmas that only read one branch are kept as remarks and are not in the table: a seed that is not 32
bytes raises (`Signatures.WrongSeedRaises`), a request leaves every other id's entry alone
(`Lookup.OtherIdsKept`), a tick between episodes does nothing (`Episodes.IdleDid`), a poll that fails
keeps the last answer (`Episodes.PollAnswers`), a rewind to an unknown id leaves no messages
(`GeminiFold.RewindToUnknown`), and of one sweep: what it archives and brings back
(`Archive.PutsOnMeans`, `Archive.TakesOffMeans`), that it leaves every other tag alone and adopts a
tag set by hand (`Archive.OtherTagsStay`, `Archive.HandIsAdopted`).

## Model

| member | source | states |
|---|---|---|
| NumberTheory.Inverse | packages/core/src/agent_media_core/_ed25519.py:99-103 | z^(p-2) is the inverse of z modulo a prime p that does not divide z |
| NumberTheory.RootOfMinusOne | packages/core/src/agent_media_core/_ed25519.py:50-50 | 2^((p-1)/4) is a square root of -1 modulo every prime p that is 5 modulo 8 |
| NumberTheory.CandidateRoot | packages/core/src/agent_media_core/_ed25519.py:84-86 | if x2 is a square modulo such a prime, x2^((p+3)/8) squares to x2 or to -x2 |
| Edwards.Complete | packages/core/src/agent_media_core/_ed25519.py:53-59 | the denominators of the addition law never vanish on the curve, so the law has no exceptions |
| Edwards.Closed | packages/core/src/agent_media_core/_ed25519.py:53-59 | the sum of two points of the curve is on the curve |
| Edwards.AddIsRatio | packages/core/src/agent_media_core/_ed25519.py:53-59 | a reduced pair is the affine sum exactly when it satisfies the cross-multiplied addition law |
| ExtendedCoordinates.ProductInvariant | packages/core/src/agent_media_core/_ed25519.py:47-59 | extended coordinates of a point satisfy XY = ZT modulo P |
| ExtendedCoordinates.AddRefines | packages/core/src/agent_media_core/_ed25519.py:53-59 | adding extended coordinates gives reduced extended coordinates, with Z not 0, of the affine sum |
| Ed25519.PointMul | packages/core/src/agent_media_core/_ed25519.py:62-69 | the double-and-add loop computes the recursive ladder from the neutral element, for every s and the neutral element for s below 0 |
| ExtendedCoordinates.LadderRefines | packages/core/src/agent_media_core/_ed25519.py:62-69 | at every state q, p1, s of the loop what is still computed is q plus s times p1 on the curve |
| ExtendedCoordinates.MulRefines | packages/core/src/agent_media_core/_ed25519.py:62-69 | the ladder from the neutral element represents s-fold repeated affine addition, for every s |
| ExtendedCoordinates.EqualRefines | packages/core/src/agent_media_core/_ed25519.py:72-75 | two coordinate tuples compare equal exactly when they represent the same affine point |
| PointCodec.RecoverRange | packages/core/src/agent_media_core/_ed25519.py:78-91 | a recovered x has y below P, lies in [0, P), has the wanted parity and squares to the wanted value; needs no primality |
| PointCodec.RecoverSound | packages/core/src/agent_media_core/_ed25519.py:78-91 | a recovered x puts (x, y) on the curve |
| PointCodec.RecoverComplete | packages/core/src/agent_media_core/_ed25519.py:78-91 | from the y and the parity of any curve point its x is recovered |
| PointCodec.Canonical | packages/core/src/agent_media_core/_ed25519.py:99-115 | compressing what any accepted string decodes to gives that string back, from P odd and the root check alone |
| PointCodec.DecompressInjective | packages/core/src/agent_media_core/_ed25519.py:106-115 | two accepted strings that decode to the same point are the same string |
| PointCodec.CompressIsEncode | packages/core/src/agent_media_core/_ed25519.py:99-103 | compression depends on the affine point only and is the encoding of section 5.1.2 of RFC 8032 |
| PointCodec.DecompressEncode | packages/core/src/agent_media_core/_ed25519.py:99-115 | every curve point's encoding decodes to that point |
| PointCodec.DecompressMeaning | packages/core/src/agent_media_core/_ed25519.py:106-115 | a string is accepted exactly when it is the encoding of a point of the curve, and then decodes to it |
| Signatures.ClampedScalar | packages/core/src/agent_media_core/_ed25519.py:118-125 | the secret scalar is a multiple of 8 in [2^254, 2^255), whatever the digest |
| Signatures.ExpandedSeed | packages/core/src/agent_media_core/_ed25519.py:118-125 | of the digest of a 32-byte seed the first half, read low byte first, gives the scalar (its three lowest bits off, nothing above bit 254, which is set), and the other half is the prefix |
| Bytes.LittleEndian | packages/core/src/agent_media_core/_ed25519.py:99-123 | bytes are read low byte first: byte i counts 256^i |
| Signatures.ClampedNotSmallOrder | packages/core/src/agent_media_core/_ed25519.py:156-162 | 8 times such a scalar is never 0 modulo Q |
| Signatures.SignMeaning | packages/core/src/agent_media_core/_ed25519.py:118-142 | the key is the encoding of a·B, and the signature is R, the encoding of r·B, then r + h·a modulo Q, with a from the digest's first half, r the digest of its other half and the message, and h the digest of R, the key and the message, modulo Q |
| Signatures.VerifyMeaning | packages/core/src/agent_media_core/_ed25519.py:145-171 | verify accepts exactly the strings that encode a key not of small order, an R and an S below Q satisfying the group equation |
| Signatures.SignThenVerify | packages/core/src/agent_media_core/_ed25519.py:118-171 | every signature made from a 32-byte seed verifies under that seed's public key, for every message and hash |
| Signatures.SameRSameSignature | packages/core/src/agent_media_core/_ed25519.py:145-171 | two signatures accepted for one key and message with the same R bytes are the same string |
| Debounce.SustainedMic.Update | packages/core/src/agent_media_core/call_guard.py:1496-1512 | the object's new fields and answer are those of the step function |
| Debounce.BargeMeaning | packages/core/src/agent_media_core/call_guard.py:1477-1512 | a tick counts as barge-in exactly when the mic is on and no tick of the unbroken recording so far was max_s into it |
| Debounce.BargeIsShort | packages/core/src/agent_media_core/call_guard.py:1477-1512 | a tick that counts as barge-in is less than max_s into its recording |
| Debounce.FlagHold.Update | packages/core/src/agent_media_core/call_guard.py:1533-1546 | the object's new fields and answer are those of the step function |
| Debounce.HeldMeaning | packages/core/src/agent_media_core/call_guard.py:1515-1546 | a hold is on exactly when some tick engaged it, its flag on at every tick for engage_s, and none since released it, off at every tick for release_s |
| Debounce.MicHoldEnds | packages/core/src/agent_media_core/call_guard.py:1689-1694 | from release_s after a recording is max_s long, and for as long as it goes on, the mic hold is off |
| Debounce.MicHoldIsShort | packages/core/src/agent_media_core/call_guard.py:1689-1694 | at a tick where a wedged recording is still held, less than release_s has passed since it was max_s long |
| CallGuard.Guard.PauseSockets | packages/core/src/agent_media_core/call_guard.py:641-682 | the loop over the pause list does and remembers what its specification says, absent and unreadable sockets and dry runs among them |
| CallGuard.Guard.ResumeSockets | packages/core/src/agent_media_core/call_guard.py:685-711 | the loop un-pauses the present sockets of the list that were not remembered as paused |
| CallGuard.Guard.DuckSockets | packages/core/src/agent_media_core/call_guard.py:714-738 | the loop reads a volume before it first lowers it, skips what it cannot read and remembers what it read |
| CallGuard.Guard.UnduckSockets | packages/core/src/agent_media_core/call_guard.py:741-756 | the loop puts every remembered volume back where the socket is present and forgets them all |
| CallGuard.Guard.OneTick | packages/core/src/agent_media_core/call_guard.py:1669-1755 | one turn of the loop changes the state and does what the tick function says |
| CallGuard.Guard.RunLoop | packages/core/src/agent_media_core/call_guard.py:1669-1759 | over any inputs every turn does what the run function says, and on the way out nothing stays ducked |
| Episodes.OutsideEpisodes | packages/core/src/agent_media_core/call_guard.py:1710-1744 | after every tick that wants no hold the saved volumes and paused sockets are empty and no call is remembered |
| Episodes.HoldingDid | packages/core/src/agent_media_core/call_guard.py:1710-1730 | inside an episode volumes are only set to the ducked one and sockets only paused, and pauses are read on its first tick alone |
| Engage.AllPaused | packages/core/src/agent_media_core/call_guard.py:641-682 | on the first tick of an episode, and at each poll of it, every present socket of the pause list is paused; on the first tick its pause state is read just before, where it can be |
| Engage.AllLowered | packages/core/src/agent_media_core/call_guard.py:714-738 | and every present socket of the duck list is lowered whose volume was read in the episode or can be read now |
| Engage.HoldBegins | packages/core/src/agent_media_core/call_guard.py:1710-1719 | the event hold begins on the first tick of each episode and on no other, before any socket is touched, and in no dry run |
| Engage.HoldEnds | packages/core/src/agent_media_core/call_guard.py:1731-1744 | it ends on the first tick after an episode and on no other |
| Engage.NothingElse | packages/core/src/agent_media_core/call_guard.py:1696-1730 | inside an episode nothing is done to a socket but at its first tick and its polls, and only to the present sockets of the two lists |
| Engage.LeavingDid | packages/core/src/agent_media_core/call_guard.py:1756-1759 | on shutdown the hold ends, and the claim is given up exactly when it was held at the last tick |
| Episodes.VolumesRestored | packages/core/src/agent_media_core/call_guard.py:1722-1735 | when an episode ends the volumes written are exactly those read before the guard's first write of that episode, one to each touched socket that is present, with its answer; none was written unread and no other is written |
| Episodes.VolumesRestoredLeaving | packages/core/src/agent_media_core/call_guard.py:1756-1759 | the same on shutdown, at any point of any run |
| Volumes.VolumeBetween | packages/core/src/agent_media_core/call_guard.py:714-756 | over any run, if reads are true and nobody else writes, a volume between episodes is the first one as long as no episode that lowered it ended with its socket gone or refusing, and the ducked one ever after |
| Volumes.VolumeLeaving | packages/core/src/agent_media_core/call_guard.py:1756-1759 | the same after the shutdown of any run, the episode then on being one more |
| Volumes.BaselineIsLost | packages/core/src/agent_media_core/call_guard.py:741-756 | a run of one call whose socket is gone at its end, and the lowered volume stays |
| Episodes.CallRemembered | packages/core/src/agent_media_core/call_guard.py:1710-1744 | the loop's call flag is set exactly when some tick of the current episode saw a call |
| Episodes.UnpauseMeaning | packages/core/src/agent_media_core/call_guard.py:1731-1744 | a socket is un-paused only when an episode ends of which no tick saw a call, only if it was not read as paused on the engage pass, and only after the event hold is let go |
| Episodes.Resumed | packages/core/src/agent_media_core/call_guard.py:1731-1744 | and then every such socket that is present is un-paused |
| Episodes.DryRunTouchesNothing | packages/core/src/agent_media_core/call_guard.py:641-756 | a dry run reads, writes and claims nothing |
| Episodes.WantMeaning | packages/core/src/agent_media_core/call_guard.py:1687-1708 | a tick wants the hold exactly for a call, a held flag or a held mic, each debounced from every tick of the run |
| Episodes.WedgedMicLetsGo | packages/core/src/agent_media_core/call_guard.py:1689-1708 | a recording that never stops no longer holds anything release_s after max_s, unless a call or the flag does |
| Episodes.ClaimFollowsFlag | packages/core/src/agent_media_core/call_guard.py:1696-1706 | the claim starts and stops exactly on the edges of the debounced flag or mic, whatever calls there are |
| Episodes.PollCadence | packages/core/src/agent_media_core/call_guard.py:1665-1676 | the notifications are next asked exactly notif_every or idle_every ticks later, and their answer stands in between |
| Claim.Interval | packages/core/src/agent_media_core/call_guard.py:927-932 | the interval used is the configured one, or the nearest to it that is at least the minimum and at most half the ttl (the minimum winning); it is below the ttl exactly when the ttl is above the minimum |
| Claim.ConfiguredIsTimely | packages/core/src/agent_media_core/call_guard.py:927-932 | with any configured interval, requests that land and take less than a quarter of a ttl of two seconds or more keep the claim alive |
| Claim.HotIsClaimed | packages/core/src/agent_media_core/call_guard.py:935-1033 | over every interleaving, with requests lost and late, while the mic is hot and a POST of its has landed the server holds the claim, unless a release of an earlier generation has deleted it since that POST and not made good |
| Claim.ClaimedExactly | packages/core/src/agent_media_core/call_guard.py:907-932 | with up to n POSTs in a row lost that holds in every run exactly when n + 1 intervals and n + 2 requests fit into the ttl |
| Claim.DefaultsLoseOne | packages/core/src/agent_media_core/call_guard.py:245-253 | at the defaults that is none lost with requests under 15 seconds, or one with requests under five, and never two |
| Claim.SettledEnds | packages/core/src/agent_media_core/call_guard.py:988-1033 | once nothing is left that will post, nothing posts before the next start, no step extends the claim, and it is gone within the ttl |
| Claim.StoppedIsSilent | packages/core/src/agent_media_core/call_guard.py:988-1033 | however a stopped state was reached, no run before the next start posts, and every such run has lost the claim after the ttl, exactly when no worker is sending, no release is to post again, and none that deletes, or is yet to look again, is of an older stop |
| Claim.WorkerOutlivesItsJoin | packages/core/src/agent_media_core/call_guard.py:1016-1024 | a run in which a stopped guard's slow worker claims again after its release is done |
| Claim.StaleReleaseClaimsAgain | packages/core/src/agent_media_core/call_guard.py:1008-1014 | a run in which a stale release claims again after a second stop and its release are done |
| MicSource.Source.OneTurn | packages/core/src/agent_media_core/call_guard.py:1438-1467 | one turn of the polling thread changes the fields and knocks as the step function says |
| MicSource.ActiveMeaning | packages/core/src/agent_media_core/call_guard.py:1438-1467 | after any turns the mic is taken for on exactly when the last read was answered and said so |
| MicSource.KnockMeansDown | packages/core/src/agent_media_core/call_guard.py:1350-1415 | a knock follows three failed reads in a row, none answered since, and a failed confirming read; a quiet one also after_s of being down |
| MicSource.QuietKnocksApart | packages/core/src/agent_media_core/call_guard.py:1384-1391 | two quiet knocks are every_s apart |
| MicSource.LoudFollowsQuiet | packages/core/src/agent_media_core/call_guard.py:1366-1378 | a loud knock comes fallback_after_s or more after a quiet one, with no answer and no knock in between |
| MicSource.KnockExactly | packages/core/src/agent_media_core/call_guard.py:1348-1391 | over any turns whose commands are there and whose confirming reads fail, which turns knock, and how: by the third miss of the silence, the last quiet knock and whether it is still unfollowed |
| MicSource.KnockIsStopped | packages/core/src/agent_media_core/call_guard.py:1393-1410 | a turn that would knock does not exactly when its command is missing or the confirming read is answered; an answer ends the silence |
| GeminiFold.GeminiPatch | packages/core/src/agent_media_core/harnesses.py:343-354 | the nested loops over the calls give the patched messages of the specification |
| GeminiFold.GeminiFold | packages/core/src/agent_media_core/harnesses.py:357-400 | the loop over the lines computes the fold |
| GeminiLines.MessageLine | packages/core/src/agent_media_core/harnesses.py:386-387 | a message's line puts it in the place of the one with its id, else at the end, and leaves the others |
| GeminiLines.SetLine | packages/core/src/agent_media_core/harnesses.py:388-393 | a $set line sets each metadata key it has, and its list, if it has one, replaces all messages: by id, first place, last content |
| GeminiLines.SessionLine | packages/core/src/agent_media_core/harnesses.py:394-398 | a session line sets each metadata key it has, and its list is merged into the messages there were, by id |
| GeminiLines.PatchLine | packages/core/src/agent_media_core/harnesses.py:375-385 | a $patch line leaves exactly the messages not in removeIds, each with the last content and results that the changes naming it have, first the unnamed ones in their order, then the named by first mention |
| GeminiFold.RunDistinct | packages/core/src/agent_media_core/harnesses.py:357-400 | no two messages ever share an id |
| GeminiFold.Compacts | packages/core/src/agent_media_core/harnesses.py:386-399 | any prefix of any log can be replaced by one $set line holding its metadata and messages |
| GeminiFold.RewindMeaning | packages/core/src/agent_media_core/harnesses.py:370-374 | a rewind leaves exactly the messages before the one it names |
| GeminiFold.ReorderMeaning | packages/core/src/agent_media_core/harnesses.py:382-385 | a reorder is a permutation: the unnamed messages in the order they had, then the named ones in the order their known ids first come |
| GeminiFold.PatchMeaning | packages/core/src/agent_media_core/harnesses.py:343-354 | a patch changes the message it names and no other: content if it has one, and each call's result to the last one given for its id |
| GeminiFold.RemoveMeaning | packages/core/src/agent_media_core/harnesses.py:380-381 | removing ids leaves the other messages in their order |
| GeminiFold.PlainFold | packages/core/src/agent_media_core/harnesses.py:386-387 | a log of messages alone folds to the newest line of each id, in the order the ids first appeared |
| GrokFold.GrokFold | packages/core/src/agent_media_core/harnesses.py:559-645 | the loop over the lines computes the fold, and the joining ids are taken out of what is returned |
| GrokTranscript.Transcript | packages/core/src/agent_media_core/harnesses.py:559-645 | the returned messages by the lines alone: where each message and each part begins and what it is joined of, its id and both stamps, and of each tool every field, the last update that gives it winning over the call |
| GrokTranscript.InfoMeaning | packages/core/src/agent_media_core/harnesses.py:637-640 | the title and the mode returned are the last non-empty ones |
| GrokFold.TextConserved | packages/core/src/agent_media_core/harnesses.py:559-645 | the user's, the agent's and the thought texts of the result are each the chunks of that kind, in order and once |
| GrokFold.CutDoesNotMatter | packages/core/src/agent_media_core/harnesses.py:586-620 | cutting any chunk of any log in two with the same messageId changes nothing but stamps and ids that are line numbers |
| GrokFold.OnePartATool | packages/core/src/agent_media_core/harnesses.py:599-613 | a non-empty tool id is on one part of the result at most |
| GrokFold.UpdateReachesItsTool | packages/core/src/agent_media_core/harnesses.py:621-636 | an update of a called tool changes that tool's one part, wherever it is, and no other |
| GrokFold.AllJoined | packages/core/src/agent_media_core/harnesses.py:586-620 | there is one assistant message between prompts, and two prompts or two parts of a kind stand side by side only when the second names another message |
| BookTracks.ExportSession | packages/core/src/agent_media_core/book_tracks.py:405-449 | the nested loops compute the run of the specification |
| Exported.ExportMeaning | packages/core/src/agent_media_core/book_tracks.py:405-449 | a run keeps the manifest's entries and adds, for the first of the turns with audio to write and in their order, one each, with its own time, title and files; it stops short only where the next turn's first clip cannot be placed |
| BookTracks.PlacedNames | packages/core/src/agent_media_core/book_tracks.py:421-443 | a turn's first clips are placed, each under the next number and its own sentence, up to one that is not there and cannot be placed |
| BookTracks.WholeTurn | packages/core/src/agent_media_core/book_tracks.py:421-443 | a turn's clips from any one on are all placed exactly when each of them is in the folder under its own number and sentence or can be placed |
| BookTracks.TurnIsCutShort | packages/core/src/agent_media_core/book_tracks.py:421-443 | an input whose first turn has a clip that cannot be placed: the next turn takes number 2, and a later run that could place it adds nothing |
| BookTracks.ExportKeeps | packages/core/src/agent_media_core/book_tracks.py:405-449 | a run keeps the old manifest as a prefix and the numbering, counts exactly the files new in the folder, and names all of them |
| BookTracks.AllAreWritten | packages/core/src/agent_media_core/book_tracks.py:409-443 | when clips can be placed, every turn with audio that is not yet written is, whole and in order |
| BookTracks.NumberedForever | packages/core/src/agent_media_core/book_tracks.py:378-449 | after any runs with any turns and folders the manifest's files are numbered 1, 2, 3 and so on |
| BookTracks.NamedOnce | packages/core/src/agent_media_core/book_tracks.py:378-449 | and no name comes twice |
| BookTracks.ManifestGrows | packages/core/src/agent_media_core/book_tracks.py:405-449 | every earlier manifest is a prefix of every later one |
| BookTracks.WrittenForGood | packages/core/src/agent_media_core/book_tracks.py:405-449 | over any runs, an entry added after a manifest never has the time of one of its entries |
| BookTracks.CutForGood | packages/core/src/agent_media_core/book_tracks.py:405-449 | a turn that a run cuts short is written again by no runs that may follow exactly when that run wrote its manifest |
| BookTracks.CutIsMended | packages/core/src/agent_media_core/book_tracks.py:405-449 | if it did not, a run on the same folder that can place everything writes that turn with all its clips, and its manifest |
| BookTracks.CutAndMended | packages/core/src/agent_media_core/book_tracks.py:405-449 | an input, the first clip's file there and the manifest without the turn, whose run writes nothing and whose next writes both clips |
| BookTracks.SecondRunUnwritten | packages/core/src/agent_media_core/book_tracks.py:445-449 | a run that wrote no manifest changes nothing however often it is repeated |
| BookTracks.SecondRun | packages/core/src/agent_media_core/book_tracks.py:405-449 | after one that did, the next run stops where it stopped, or, if that turn has the time of a written one, goes on behind it |
| BookTracks.SecondRunExactly | packages/core/src/agent_media_core/book_tracks.py:405-449 | a second run at once changes something exactly when the first wrote its manifest and behind a turn whose first clip would not go, with the time of an earlier one, a turn is reached whose first clip not in the folder can be placed |
| BookTracks.SecondRunAddsNothing | packages/core/src/agent_media_core/book_tracks.py:378-449 | with distinct turn times a second run at once adds and changes nothing |
| BookTracks.SecondRunAdds | packages/core/src/agent_media_core/book_tracks.py:405-445 | an input with two turns of one time whose second run adds a track |
| BookTracks.NumberOfName | packages/core/src/agent_media_core/book_tracks.py:147-156 | a file name gives back its number |
| BookTracks.SortsUpTo9999 | packages/core/src/agent_media_core/book_tracks.py:147-156 | the names of n numbered tracks sort in playing order exactly when n is at most 9999 |
| Chapters.ChaptersFrom | packages/core/src/agent_media_core/book_tracks.py:498-527 | the loop over the turns computes the chapters of the specification, titles and rounded times among them |
| Chapters.NameHoldsTitle | packages/core/src/agent_media_core/book_tracks.py:519-523 | what is read from a file name as a title is the sentence the name was made for, whatever dots and dashes the sentence has |
| Chapters.TitleMeaning | packages/core/src/agent_media_core/book_tracks.py:516-523 | a title is the opening of what the manifest keeps, stripped, or of the sentence that the first file is named for |
| Chapters.ChaptersAre | packages/core/src/agent_media_core/book_tracks.py:498-527 | with any offsets chapter k is turn k's by number, title and the rounded times of its tracks, and they stop at the first turn without files or beyond the tracks |
| Chapters.ChaptersTile | packages/core/src/agent_media_core/book_tracks.py:498-527 | with cumulative offsets each chapter begins where the one before it ends, from 0 on |
| Archive.ArchivedOnceATurn | packages/core/src/agent_media_core/book_tracks.py:1170-1243 | over any run with any hands and failed patches, a second archiving has a newer turn than the first |
| Archive.HandStands | packages/core/src/agent_media_core/book_tracks.py:1170-1243 | a tag a hand took off stays off until there is a newer turn |
| Archive.FailedPatchIsForgotten | packages/core/src/agent_media_core/book_tracks.py:1238-1250 | after a failed patch no later sweep archives the conversation until it has another turn |
| Archive.ArchivedExactly | packages/core/src/agent_media_core/book_tracks.py:1170-1250 | after any sweeps any untagged conversation is archived exactly when the patch of the first sweep that would archive it landed; one whose record is out of date loses it to the first sweep, one on record is never tried |
| Archive.BroughtBackExactly | packages/core/src/agent_media_core/book_tracks.py:1170-1250 | after any sweeps any tagged conversation is without the tag exactly when it had a turn since its record, the patch of the next sweep landed, and none has archived it since |
| Base32.Base32 | deploy/lookup/src/index.ts:65-78 | the loop with its unmasked 32-bit accumulator gives the big-endian groups of five bits of any bytes |
| Base32.ReadsLowBits | deploy/lookup/src/index.ts:65-78 | wrapping at 32 bits changes none of the digits that are read |
| Base32.DecodeEncode | deploy/lookup/src/index.ts:65-78 | an explicit decoder gives back every byte string |
| Base32.EncodeInjective | deploy/lookup/src/index.ts:65-78 | different byte strings have different encodings |
| Base32.IdShape | deploy/lookup/src/index.ts:65-83 | 16 bytes give exactly 26 characters, all of the alphabet |
| Lookup.Worker.Put | deploy/lookup/src/index.ts:101-152 | the store and the status after a request are those of the step function |
| Lookup.StoreTracks | deploy/lookup/src/index.ts:138-151 | the entry of an id has the url, the key and the time stamp of its last accepted write and that write's time to the second, with the times of all accepted in the hour before it |
| Lookup.AcceptedExactly | deploy/lookup/src/index.ts:101-152 | a write is accepted exactly when its address is let through and it is small, fresh, well formed and verifies under the key its id is of, and follows its id's earlier accepted writes: five seconds on, at most the thirtieth of the hour, and while the entry lasts with the same key and a later time stamp |
| Lookup.RefusedFor | deploy/lookup/src/index.ts:101-152 | each refusal's status names a fault that the write has, and a refused write changes nothing |
| Lookup.TimeStampsIncrease | deploy/lookup/src/index.ts:124-142 | the time stamps accepted for an id strictly increase, across the 60-day expiry too |
| Lookup.NoReplay | deploy/lookup/src/index.ts:101-152 | no signed body is accepted twice |
| Lookup.ThirtyPerSpan | deploy/lookup/src/index.ts:143-150 | at most 30 accepted writes of an id lie in any span short enough that rounding cannot carry one out of the hour |
| Lookup.ThirtyPerHour | deploy/lookup/src/index.ts:143-150 | with any clock, in any hour less half a millisecond |
| Lookup.ThirtyPerHourExactly | deploy/lookup/src/index.ts:143-150 | with a clock that counts milliseconds, in any hour |
| Lookup.FiveSecondsApart | deploy/lookup/src/index.ts:143-150 | with any clock, accepted writes of an id are five seconds apart, less half a millisecond |
| Lookup.FiveSecondsApartExactly | deploy/lookup/src/index.ts:143-150 | with a clock that counts milliseconds, five seconds |
| Feed.CdataRoundTrip | packages/core/src/agent_media_core/feed.py:371-375 | reading the output as CDATA sections, each ended by its first close, and joining them gives back every text (section 2.7 of XML 1.0) |
| Feed.CdataInjective | packages/core/src/agent_media_core/feed.py:371-375 | different texts print differently |
| Docs.MakeParas | packages/core/src/agent_media_core/docs.py:385-398 | the loop over the buffer computes the paragraphs of the specification |
| Speech.ParasMeaning | packages/core/src/agent_media_core/docs.py:385-398 | the paragraphs are exactly the runs of lines between blanks, each with its first line's number and its words |
| Speech.SectionsMeaning | packages/core/src/agent_media_core/docs.py:434-514 | the sections are exactly the stretches between headings that have words or a heading, each with its heading, level, line, text and paragraphs |
| Docs.NothingIsLost | packages/core/src/agent_media_core/docs.py:385-514 | every word of the stream, headings among them, is in the sections' headings and paragraphs, once and in order |
| Docs.SourceLinesRise | packages/core/src/agent_media_core/docs.py:385-514 | if the lines of the stream only go up, so do those of the headings and paragraphs |
| Markdown.SpeakableSections | packages/core/src/agent_media_core/docs.py:434-514 | the index-driven loops compute the assembled stream, for every source |
| Markdown.OpenMeaning | packages/core/src/agent_media_core/docs.py:468-477 | a fence is open at a line exactly when one of its kind opened it before, outside any other, and no line since is of its kind |
| Markdown.LineSays | packages/core/src/agent_media_core/docs.py:463-511 | what each line says: nothing inside a fence, the number of a code block's lines or of a table's rows at its first line, set apart, a list item's words set apart, a heading, or its words |
| Markdown.BlocksAreLines | packages/core/src/agent_media_core/docs.py:463-511 | jumping from block to block says what an automaton reading line by line says |
| Markdown.Projects | packages/core/src/agent_media_core/docs.py:434-514 | for every markdown source the sections say what its lines say, and the source lines of headings and paragraphs are in range and strictly increase |
| Org.SpeakableSectionsOrg | packages/core/src/agent_media_core/docs.py:565-673 | the index-driven loops compute the assembled stream, for every source |
| Org.BlockMeaning | packages/core/src/agent_media_core/docs.py:594-625 | a block is open at a line exactly when one of its name began before, outside any other, and no line since ends it |
| Org.DrawerMeaning | packages/core/src/agent_media_core/docs.py:626-634 | the same of a drawer |
| Org.LineSays | packages/core/src/agent_media_core/docs.py:594-670 | what each line says, by the block or drawer it is in and by its own kind |
| Org.BlocksAreLines | packages/core/src/agent_media_core/docs.py:594-670 | jumping over blocks, drawers and tables says what an automaton reading line by line says |
| Org.Projects | packages/core/src/agent_media_core/docs.py:565-673 | for every org source the sections say what its lines say, and the source lines of headings and paragraphs are in range and strictly increase |
| Speech.JobAt | packages/core/src/agent_media_core/docs.py:856-869 | the clips of a section stand together, in the order of its pieces |
| Speech.JobsMeaning | packages/core/src/agent_media_core/docs.py:845-857 | of every section of a source exactly its heading and each of its paragraphs are clips, with their own words and source lines |
| Speech.JobsSayAll | packages/core/src/agent_media_core/docs.py:845-869 | the clips say everything that a stream says, once and in order |
| Speech.MarkdownIsSpoken | packages/core/src/agent_media_core/docs.py:434-869 | for every markdown source the clips say what its lines say, once and in order |
| Speech.OrgIsSpoken | packages/core/src/agent_media_core/docs.py:565-869 | the same for every org source |
| Speech.PartsMeaning | packages/core/src/agent_media_core/docs.py:884-899 | the clips joined are exactly those that could be made, once and in order |
| Speech.ClockMeaning | packages/core/src/agent_media_core/docs.py:884-899 | the clock before a clip is the length of those joined before it |
| Speech.JobIsTimed | packages/core/src/agent_media_core/docs.py:888-899 | every clip made of a job with a line has its timing, from the clock before it and as long as the clip |
| Timeline.RenderTimeline | packages/core/src/agent_media_core/docs.py:884-901 | for each section a scan of all jobs gives the parts, the chapters and the rounded times with their opening words that one pass over the jobs gives |
| Timeline.TimingsOrdered | packages/core/src/agent_media_core/docs.py:884-901 | the times are ordered and disjoint, none empty, whichever jobs failed |
| Timeline.ShownInOrder | packages/core/src/agent_media_core/docs.py:896-898 | rounding by any monotone function keeps the times ordered and disjoint, within the rounded clock, on the same lines with the opening of what is said there |
| Timeline.ChaptersTile | packages/core/src/agent_media_core/docs.py:884-901 | the chapters tile the time from 0 to the end, none empty, in the order of their sections |
| Timeline.InsideItsChapter | packages/core/src/agent_media_core/docs.py:884-901 | each spoken job lies inside its own section's chapter |
| Timeline.TimingIsAJob | packages/core/src/agent_media_core/docs.py:888-899 | each timing is that of a spoken job with that job's line |
| Timeline.FollowsAlong | packages/core/src/agent_media_core/docs.py:845-901 | if the sections' source lines only go up, so do those of the timings, which are ordered and disjoint, and the chapters tile [0, duration] |
| Timeline.MarkdownFollowsAlong | packages/core/src/agent_media_core/docs.py:434-901 | for every markdown source and any lengths the timings are ordered and disjoint, their source lines are in range and strictly increase, and the chapters tile [0, duration] |
| Timeline.OrgFollowsAlong | packages/core/src/agent_media_core/docs.py:565-901 | the same for every org source |
| Free.DeviceState.Report | packages/core/src/agent_media_core/free.py:114-137 | the file after a report is that of the step function and the answer given means what it should |
| Free.DeviceState.Speak | packages/core/src/agent_media_core/free.py:213-221 | the same for a press of "speak as it comes" |
| Free.GiveAnswer | packages/core/src/agent_media_core/free.py:159-210 | the loop's answer: free exactly when no fresh device gives a reason, with the union of reasons, the latest end, the freshest kind of quiet and the age of the freshest report |
| Free.AllFromReports | packages/core/src/agent_media_core/free.py:84-137 | after any reports and presses every device that reported is in the file once, with what its last report says: each flag, each end that is a time, and a known kind of a quiet that is on |
| Free.WhyByReports | packages/core/src/agent_media_core/free.py:84-137 | after any reports and presses he is busy for a reason exactly when some device's last report gives it and is not stale: a call or a voice for call, quiet for quiet, an end still to come for meeting and manual |
| Free.BusyShrinks | packages/core/src/agent_media_core/free.py:101-111 | the same reports never make busy later what they left free before |
| Free.SinceTracks | packages/core/src/agent_media_core/free.py:114-137 | whenever the answer is busy a beginning is kept, and a kept beginning is that of a report that found it free before and busy after |
| Free.SinceIsTheBeginning | packages/core/src/agent_media_core/free.py:114-137 | at every moment from the beginning kept to a busy now the answer was busy |
| Free.SpeakingIsOfThisSpell | packages/core/src/agent_media_core/free.py:159-221 | a press in force was made after the beginning of the spell that is on |
| Free.FreeMomentEndsSpeaking | packages/core/src/agent_media_core/free.py:159-221 | after a free moment no earlier press is in force |
| Catchup.Watcher.Tick | packages/core/src/agent_media_core/catchup.py:103-121 | the watcher's new fields and what it emits are those of the step function |
| Catchup.EmissionMeaning | packages/core/src/agent_media_core/catchup.py:96-121 | what a reading emits, by the readings since the last emission alone: the beginning of the first busy one and the union of their reasons, once free for the largest settle among them |
| Catchup.SettlesIn | packages/core/src/agent_media_core/catchup.py:96-121 | a free reading emits exactly when there was a busy one since the last emission and free has lasted a minute after a quiet ringer, half of one after a call without, no time otherwise |
| Catchup.OncePerSpell | packages/core/src/agent_media_core/catchup.py:96-121 | between two emissions there is a busy reading |
| Catchup.EverySpellIsSaid | packages/core/src/agent_media_core/catchup.py:96-121 | a busy reading followed by a minute of free ones is emitted for exactly once |

## Left out

- Proofs that P is prime, that d is no square, that the curve's addition is associative and that the base point has order Q: assumptions, named in `Signatures.dfy`.
- SHA-512, SHA-256, WebCrypto signatures, JSON parsing and the regular expressions: functions given to the model, or inputs.
- I/O: sockets, HTTP, SSE, subprocesses, the disk, ffmpeg, text to speech, Audiobookshelf and Matrix. A clip that could not be placed is taken to leave nothing in the folder.
- Floating point: times are reals. Rounding is to the millisecond in `Lookup.dfy`; in `Chapters.dfy` and `Timeline.dfy` it is any function of a time, monotone where that matters.
- The call guard: the hold threads of `PauseHold`, the call hooks, the record of external holds, reading the flag file and its expiry, the lock on the sockets, and whether the notifications match a call. The hold threads start before the pause state is read, so it is not claimed that every socket that was playing is resumed.
- A socket that is in both lists, or twice in one, may answer differently at each place of a list in one tick; a ducked one is given back by name.
- Claim.HotIsClaimed: the requests of the worker in charge take no longer than a given lag, and no more than a given number of them in a row are lost; nothing is said before its first POST lands. A request lands at one moment or not at all.
- MicSource.LoudFollowsQuiet: a knock counts as made when its command is there and the confirming read failed, whether or not the command could be run, as in the source.
- MicSource.Source.OneTurn: how long the poller waits between two turns; the times of the turns are inputs.
- GrokFold: a tool's part is an alias of an element of a message; it is modelled as that element's position.
- GeminiFold: the parts of a line that are of the wrong type are skipped as the source skips them; ids that cannot be dictionary keys, on which Python raises, are not modelled.
- Blanking HTML comments in markdown, and splitting a document into lines. Blanking keeps every line its number in a document whose only line breaks are newlines; of a comment with a form feed or another break that `splitlines` knows, the lines behind it move up (`docs.py:447`, `docs.py:468`).
- The joining of a paragraph's words by blanks and of a section's text by line breaks, the inline markup, heading text and tags: a line's words are given.
- Timeline.RenderTimeline: a chapter's title; it is told by its section's number.
- BookTracks.ExportSession: which folder is used, deleted and sealed conversations, and the other fields of the manifest.
- Several servers in one sweep, and the live tag.
- Free.DeviceState.Report: asking whether to be told of a new meeting.
- Lookup.Worker.Put: reading the body and checking the signature are inputs; the GET side and the limits on urls are not modelled.
- `gc`, `publish` and `remove` of feed.py, `stored` of harnesses.py, `_live_turn` and `conversation_log` of book_tracks.py, finding, listing and caching documents, collecting and composing a catch-up: they would only add easy members.
