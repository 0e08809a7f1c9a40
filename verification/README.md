# Silokatana storage engine: a verified model

Silokatana is a small key-value engine. Writes go to a skip list in memory and to an operation log;
a full list is parked and merged into a sorted directory of files, each of which holds one range of
keys. Values live in an append-only value file. A Bloom filter stands in front of the index and a
two-level cache in front of the database. A Redis-style parser and printer are the way in and out.

This project models that engine and proves what it computes. Each stateful part of the program is a
class with the program's own fields and loops, proved equal to a function on values; the laws are
lemmas about those functions.

| part | files |
|---|---|
| keys, sorted runs, what they mean as a map | `Keys`, `Records`, `Merging`, `Decimal` |
| byte formats | `Text`, `Codec`, `Image` |
| the growing buffer, by itself: the writers of files and log build byte strings and do not call it | `Bits`, `Buffer` |
| skip list | `Jikukan` |
| directory | `Meta` |
| files: what a flush and a merge compute, their laws, the running code | `Store`, `StoreLaws`, `FlushLaws`, `MergeLaws`, `MergeTheorem`, `LookupLaws`, `Silopit` |
| merges that restart at the head of their list | `RestartLaws`, `MixedLists`, `LostTail`, `RestartExample` |
| merges that use an index across a flush | `StaleIndex`, `CutLists`, `CutExample`, `LooseStore`, `Strides`, `Damage`, `CutRest`, `Lacks`, `Astray`, `StrayRest`, `RoutedLaw` |
| the exact law of the merge, for every list | `AnyList` |
| Bloom filter | `Hiraishin`, `Filter` |
| value file and operation log | `Logs`, `LogLaws` |
| index as a step machine, what it never refuses, and running | `Index`, `IndexLaws`, `Liveness`, `LiveIndex` |
| reopening and closing | `Reload`, `Fresh`, `Recovery`, `Lives` |
| cache and database | `Ht`, `Cache`, `Level`, `Shiki`, `Db`, `DbLaws`, `LiveDb` |
| runs into the states where a law makes an exception | `Witness`, `Poison` |
| request parser and response printer, a client's reader of replies | `Request`, `RequestLaws`, `Commands`, `Grammar`, `LiveRequest`, `Response`, `Reader` |

Main results:

* After any run of adds, removes, reads, rotations and merges from an empty store, a read answers what
  one map would, exactly unless it meets a parked tombstone over a key that is still on disk
  (`IndexLaws.ReadsAnswerLikeOneMap`).
* A merge keeps the directory invariant and overlays the store with the list, so dropping tombstones is
  sound (`MergeTheorem.MergeCorrect`, `MergeTheorem.MergeOverlays`). The program's walk does so for some lists
  only: for every store and every list, exactly when it does (`AnyLists.MergesRightExactly`).
* A step is refused in three cases only (`Liveness.RefusedIff`), a parked list that routes uniformly and cuts at most
  the last file it touches goes into the files exactly if every chunk it makes keeps a record, however long it is
  (`Liveness.MergeGoesThroughIff`), and a run without those cases comes to its end
  (`Liveness.EnabledRunsGoOn`).
* A run, a crash and a restart: the store opens again exactly if the log is empty or merges right, and a read still
  answers like the map, exactly unless it asks for the record that triggered the last rotation, that record is nowhere
  in the log, and the files disagree with it (`Recovery.ReadsAfterRestart`).
* Any number of lives of one store, each opened on what the one before left and ended by a crash or a
  clean close: the same, where a crash forgets of the map only what it forgets of the key of such a record,
  and a close forgets nothing (`Lives.ReadsOverLives`).
* With the cache in front, every cached value is what the index would return
  (`Databases.CacheNeverDisagrees`), and a run that keeps each level below its own allowance is never stopped by the
  cache (`DatabaseLaws.EnabledRunsGoOn`).
* A request fed in pieces parses like the whole, and exactly where it may be cut
  (`RequestLaws.PiecesParseLikeWhole`, `RequestLaws.PrefixWaitsIff`). It is the command that its first argument
  spells, in any case (`Commands.CommandIff`).
* A client, whose reader of replies is defined apart from the printer, reads back what every response means
  (`ReplyReaders.ClientReadsPrint`).
* The encodings of integers compare like the integers (`Codec.PutIntInOrder`, `Codec.PutLongInOrder`), so with their
  lengths and round trips nothing but big-endian order is left; what lies where in the files is stated by
  `Images.RecordBytes`, `Logs.ValueFields` and `Logs.LineFields`.

Where the program departs from what it is evidently for, it is modelled as written, and the exact
condition is proved:

* the walk restarts at the head of the list with the count of what is left: exactly when the directory and
  the contents survive it (`MixedLists.RestartRightIff`, `MixedLists.SmallRestartIff`), and that a list that
  ends in an ADD never does (`LostTails.MixedLosesLast`), with a store and a list that lose one
  (`RestartExample.AddBehindIsLost`);
* a directory index is used across a flush that may shift the directory: where it points then
  (`StaleIndex.StaleIndexIff`), exactly when the merge is still right, for the record behind a cut
  (`CutLists.CutMergeIff`), for all that follow it (`CutRests.CutMergeGoesOnIff`), and for every list whose
  keys route to files, however often its merge cuts them (`RoutedLaws.RoutedRightIff`); and which keys it
  hides (`CutLists.CutHidesKey`), for every size of a chunk (`CutExample.SplitHidesKey`);
* records of variable width are read with a fixed width (`Images.LayoutFaithfulIff`);
* a chunk of tombstones only stops the process (`MergeTheorem.MergeCorrect`);
* byte 4 of an offset is sign-extended (`Codec.U64UndoesPutLongIff`);
* a parked tombstone is not honoured by a read (`IndexLaws.GetExact`), and a read that meets one poisons
  the cache (`Databases.MissKeepsCoherentIff`); both happen (`Witnesses.StaleReadHappens`,
  `Poisons.CacheIsPoisoned`);
* a log that broke off inside a line keeps the store from being opened (`Recovery.TornLogNeverReopens`), and so does
  a key of 32 bytes or more in it (`Logs.LogReadsIff`);
* the record that triggers a rotation is in the log that goes (`LogLaws.LogOfRunRebuildsIff`,
  `Witnesses.TriggerIsLost`), and a crash then forgets its key (`Witnesses.RestartForgetsKey`);
* a remembered argument length of 0 looks like none (`Requests.ResumesIff`), so an empty argument in two
  pieces is waited for in vain (`RequestLaws.EmptyArgumentIsLost`);
* the argument index is not reset when another request follows in the buffer (`Requests.ReadyAgainIff`),
  so that request is taken into slots behind the argument array (`RequestLaws.SecondRequestOverruns`);
* CRs may stand anywhere among the digits of a header (`Grammars.HeaderReadsIff`), and the two bytes behind an
  argument are never looked at (`Grammars.EndsAreNotLookedAt`);
* the links of a cache level lose all nodes in front of one that is removed (`Levels.UnlinkedCutsOff`);
* a single string is printed without its count (`Responses.ParseUndoesPrintIff`);
* the cache never links its levels, so an eviction stops the process: exactly when the level of the entry has
  reached its own allowance (`Caches.UseStopsIff`, `DatabaseLaws.FetchStopsIff`).

Assumptions shared by all parts: keys are C strings of fewer than 32 bytes, and their length field is
their length; a background merge is one atomic step, and a rotation waits for the merge before it
(storage/src/index.c:146-151 takes a mutex there); the coin flips of the skip list may fall any way; the
limits of the program (records per file, capacity of the list, length of the directory, size of the
filter, slots of the hash table, allowances of the cache) are parameters. The functions on values take
any byte string as a key; where the C strings matter they are demanded by name (`NoNul`, `IsCString`,
`Fit`).

## Model

| member | source | states |
|---|---|---|
| Records.UpsertSorted | storage/src/jikukan.c:128-156 | inserting keeps a run strictly sorted; its records are the old ones of other keys and the new one |
| Records.OverlayUpsert | storage/src/jikukan.c:128-156 | inserting a record changes the run's meaning as a map by exactly that record, tombstones included |
| Jikukans.Jikukan.constructor | storage/src/jikukan.c:79-92 | an empty list of the given capacity |
| Jikukans.Jikukan.Descend | storage/src/jikukan.c:119-126 | the descent terminates and records on every level the last node before the key |
| Jikukans.Jikukan.AddNode | storage/src/jikukan.c:135-156 | for every tower height the new record stands between its neighbours and all levels stay linked |
| Jikukans.Jikukan.Insert | storage/src/jikukan.c:109-157 | refuses exactly when full, otherwise overwrites or adds one record in key order |
| Jikukans.Jikukan.Lookup | storage/src/jikukan.c:164-179 | finds a node exactly if the list has the key, and then the key's node |
| Jikukans.SpliceKeepsLinked | storage/src/jikukan.c:137-156 | linking a tower of any height after its predecessors keeps every level in key order and circular |
| Jikukans.EachLevelThinsTheOneBelow | storage/src/jikukan.c:151-154 | following the pointers of a level visits, in key order, some of the nodes of the level below and comes back to the header |
| Metas.Meta.Get | storage/src/meta.c:39-62 | the loop computes the binary search function |
| Metas.SearchFinds | storage/src/meta.c:39-62 | on a sorted directory the search gives the first file whose end is not below the key |
| Metas.SearchIs | storage/src/meta.c:39-62 | any position whose neighbours' ends lie around the key is the one the search gives |
| Metas.Meta.Slot | storage/src/meta.c:66-80 | where an end belongs, and whether it is there already |
| Metas.Meta.InsertAt | storage/src/meta.c:80-84 | the shift inserts one node, numbered by the new size, and loses none |
| Metas.Meta.Set | storage/src/meta.c:64-85 | inserts a node in end order, or nothing when its end exists |
| Metas.Meta.SetByName | storage/src/meta.c:87-100 | moves the end of the first node of that name and changes nothing else |
| Codec.U32UndoesPutInt | storage/src/buffer.c:122-154 | decoding four bytes undoes encoding, modulo 2^32 |
| Codec.U64UndoesPutLongIff | storage/src/buffer.c:156-181 | decoding eight bytes undoes encoding exactly if bit 31 is clear or the upper half is all ones |
| Codec.PutIntInOrder | storage/src/buffer.c:122-129 | the encodings of two integers below 2^32 compare, byte by byte from the front, like the integers, so the order of the four bytes can be no other |
| Codec.PutLongInOrder | storage/src/buffer.c:156-167 | so do those of two offsets below 2^64 |
| Codec.DecodedOffset | storage/src/buffer.c:169-181 | what becomes of any encoded offset: below bit 31 the offset itself, otherwise its low half under a high half of ones |
| Bits.NextPowerIff | storage/src/buffer.c:32-41 | the result is the least power of two not below x exactly for x from 1 to 2^31, and 0 for every other word |
| Bits.SmearStep | storage/src/buffer.c:35-39 | each shift-and-or doubles the run of ones at the top of the word |
| Buffers.Buffer.ExtendBy | storage/src/buffer.c:43-57 | there is room afterwards, all allocated bytes are kept, and a new allocation is the least power of two that fits |
| Buffers.NextPowerIsIntIff | storage/src/buffer.c:32-54 | the new length, which the program keeps in an int, fits one exactly for totals up to 2^30 |
| Buffers.Buffer.constructor | storage/src/buffer.c:69-81 | an empty buffer with the reserve allocated |
| Buffers.Buffer.Clear | storage/src/buffer.c:90-96 | the buffer is empty, its first byte is NUL if any is allocated, and all others stay |
| Buffers.Buffer.PutStr | storage/src/buffer.c:98-105 | appends the C string up to its NUL; never writes past buflen |
| Buffers.Buffer.PutNStr | storage/src/buffer.c:107-113 | appends exactly these bytes, closed by a NUL that does not count; never writes past buflen |
| Buffers.Buffer.PutC | storage/src/buffer.c:115-120 | appends one byte; never writes past buflen |
| Buffers.Buffer.PutInt | storage/src/buffer.c:122-129 | appends the four bytes of the encoding that `PutIntInOrder` shows to be big-endian; never writes past buflen |
| Buffers.Buffer.PutLong | storage/src/buffer.c:156-167 | appends the eight bytes of the encoding that `PutLongInOrder` shows to be big-endian; never writes past buflen |
| Buffers.Buffer.Detach | storage/src/buffer.c:192-198 | hands out what was put and starts over |
| Images.ReadUndoesWrite | storage/src/silopit.c:228-262 | a written chunk whose ADD keys have one length and whose offsets can be decoded reads back as its ADD records in order, whatever was left in the buffer |
| Images.MaxLenIsLongest | storage/src/silopit.c:58-83 | the key field is as wide as the longest key that is written, and its NUL |
| Images.RecordBytes | storage/src/silopit.c:228-262 | in a file of keys of one length, record i starts at i times the record's width and is its key, a NUL and eight bytes of offset; the footer holds the last key of the chunk, the count, 2011, the size and the width |
| Images.LayoutFaithfulIff | storage/src/silopit.c:303-331 | the layout is faithful for all offsets exactly if the keys have one length |
| Decimal.AtoiUndoesDigits | server/src/request.c:161-183 | reading a decimal numeral undoes writing it |
| Decimal.AtoiSkipsZeros | server/src/request.c:161-183 | zeros in front of a numeral change nothing |
| Decimal.DigitsInOrder | storage/src/silopit.c:447-456 | a longer numeral is the larger number, and those of one length compare from the front; no two numbers share one |
| Stores.FileNameInjective | storage/src/silopit.c:447-456 | different numbers give different file names |
| Stores.NameOfNumber | storage/src/silopit.c:447-456 | a file's name is the decimal digits of its number and then ".silopit" |
| Stores.MergeInBounds | storage/src/meta.c:64-85 | whatever the list, a merge that goes through leaves the directory as long as it was or shorter than its array |
| Stores.LeftoverShowsThrough | storage/src/silopit.c:228-262 | behind its records, up to the size that count and width call for, a file shows what an earlier write left in the buffer |
| Stores.MissingFileStops | storage/src/silopit.c:514-531 | a merge whose first key routes to a file that is not there stops |
| StoreLaws.OverwriteCorrect | storage/src/silopit.c:256-278 | rebuilding a file in its own range keeps the directory invariant, even when its end moves down to a dropped tombstone's key, and changes that stretch of the store only |
| StoreLaws.InsertCorrect | storage/src/silopit.c:266-276 | a new file under the next number keeps the invariant: ends rise, names are the numbers below the size, lsns are a permutation, each file holds its range; its keys may have another length than those of other files |
| FlushLaws.SplitConserves | storage/src/silopit.c:447-458 | cutting a run loses, duplicates and reorders nothing; every piece has between M and 2M-1 records |
| FlushLaws.ChunksConserve | storage/src/silopit.c:462-486 | the chunks of a flush concatenate to the run; up to 2M records stay one chunk |
| FlushLaws.WriteNewCorrect | storage/src/silopit.c:447-458 | chunks written into new files one after the other keep the invariant; the process stops exactly at a chunk without ADD records |
| FlushLaws.FlushNewCorrect | storage/src/silopit.c:462-486 | a run behind all files becomes new files at the end |
| FlushLaws.FlushMergeCorrect | storage/src/silopit.c:418-460 | a rebuilt file replaces its stretch of the store by the run's ADD records, in as many files as it needs |
| MergeLaws.WalkCorrect | storage/src/silopit.c:488-544 | from any point of the walk on, the rest of the list is merged in; it stops exactly at a chunk without ADD records |
| MergeTheorem.MergeCorrect | storage/src/silopit.c:488-567 | a merge of a uniformly routed list that cuts at most the last file it touches keeps the invariant and merges the whole list in; it stops exactly if some chunk has no ADD record; the lengths of keys have to agree within each chunk written, and nowhere else |
| MergeTheorem.MergeOverlays | storage/src/silopit.c:546-567 | as a map the store is the old one overridden by the list's ADDs and minus its DELs |
| MergeTheorem.MergeableIsSound | storage/src/silopit.c:488-567 | such a merge stops the process or is right: invariant, and contents overlaid with the list |
| MergeTheorem.MergeReaches | storage/src/silopit.c:497-537 | a longer list is walked like its routed head until the head ends: a flush stops both, or both reach the state in which the head's last run is collected |
| RestartLaws.RestartIff | storage/src/silopit.c:462-486 | a run whose front is stored already, written chunk by chunk behind the files: the directory invariant survives exactly if each chunk of the front ends where a file ends, and is dropped, and the chunk across the border brings no ADD of the front; then only the records behind the border were added |
| RestartLaws.EnteredTwice | storage/src/meta.c:64-85 | a chunk entered under a new end although a file holds one of its records leaves the key in two files, and no later new file takes that back |
| LostTails.MixedLosesLast | storage/src/silopit.c:496-512 | a list that routes partly behind the last file and ends in an ADD loses that record, wherever the merge cuts files |
| MixedLists.MergesRightIff | storage/src/silopit.c:496-512 | a merge of a list that cuts at most the last file it touches ends, keeps the directory invariant and overlays the contents, exactly if, the keys routing uniformly, every chunk keeps a record, or else, some lying behind all files, every rebuilt file and chunk keeps a record, the chunks of the restart are harmless and no ADD is left out |
| MixedLists.RestartRightIff | storage/src/silopit.c:500-512 | once the records that route to files are merged right, however that was done: the restart is right exactly if each of its chunks keeps a record, the chunks are harmless to the files as they then end, and no ADD is left out |
| MixedLists.SmallRestartIff | storage/src/silopit.c:500-512 | for a restart of one chunk: exactly if more records lie behind the files than route to them, no routed record is an ADD, the chunk and every rebuilt file keep a record, and no ADD is left out |
| MixedLists.TombstoneHeadIff | storage/src/silopit.c:500-512 | if only tombstones route to files: exactly if every chunk and every rebuilt file keep a record and no ADD is left out |
| RestartExample.DroppedChunkIsHarmless | storage/src/silopit.c:500-512 | a store and a list with a routed ADD whose merge is right all the same: its chunk ends where a file ends and is dropped |
| RestartExample.AddBehindIsLost | storage/src/silopit.c:500-512 | a store and a list of two ADDs, the second behind all files: the merge ends, and that record is in none of them |
| StaleIndex.FlushMergeShifts | storage/src/silopit.c:447-458 | a rebuilt file becomes one file for each chunk, with that chunk's ADD records and last key; the files behind it stay as they are and move back by the number of new files |
| StaleIndex.StaleIndexIff | storage/src/silopit.c:493-530 | the index found before a flush names the key's file after it exactly if the flush did not cut its run; otherwise the file stands further back by the number of new files |
| CutLists.OneMoreMerge | storage/src/silopit.c:512-531 | a merge whose last record goes to a later file is the merge of the others, and then a flush of that record into whatever file stands at the old place |
| CutLists.OneMoreWalk | storage/src/silopit.c:512-531 | the same at the start of any longer list: its walk then holds the run at the old place, with that record in it |
| CutLists.CutMergeIff | storage/src/silopit.c:493-544 | the merge of a head and one record behind it is right exactly if every chunk keeps a record and the file before was not cut, or was cut in two and the record lies below every key of its own file |
| CutLists.CutHidesKey | storage/src/silopit.c:493-544 | if it was cut in two and the record does not, every smaller key of that file is found before the merge and not after it |
| Strides.WalkForgets | storage/src/silopit.c:488-544 | a walk that goes on behind a misplaced run does what it would do on the records left over alone: neither those before nor the files below matter to it |
| CutRests.RestMergesAlone | storage/src/silopit.c:488-544 | behind the record that lands wrong the merge is, for any number of records, the merge of these alone into the store that a merge up to that record leaves |
| Damages.DamageStays | storage/src/silopit.c:488-544 | a file that hangs over the start of the next one is not mended by any further walk over larger keys: the directory is out of order in the end |
| CutRests.CutMergeGoesOnIff | storage/src/silopit.c:488-544 | a list that goes on behind a cut merges right exactly if every chunk of its head keeps a record, the file before was cut in two, the record behind the cut lies below every key of its own file, and the rest merges right into what that leaves; and the whole merge is those two, one after the other |
| CutRests.FirstCut | storage/src/silopit.c:493-544 | every list that routes to files and cuts one before the last file it touches is a head up to its first cut, one record behind it, and a rest of that kind |
| Lacking.WalkWithout | storage/src/silopit.c:488-544 | a key that no file and no run holds is in no store that a walk over other keys leaves |
| Astrays.HalfwayThere | storage/src/silopit.c:418-460 | where the run with a misplaced record is cut itself, its parts but the last stand one behind the other at the old place, in an ordered directory, before the last part is entered under that record's key |
| StrayRests.StrayNeverRight | storage/src/silopit.c:488-544 | a record that went into a file in front of its own, where it does not fit: the merge is not right, whatever larger keys follow and whether or not the run is cut |
| RoutedLaws.StrayFitsIn | storage/src/silopit.c:488-544 | where it fits, the walk does what a merge of that record and the rest does to the store in which the file before ends at the record's key |
| RoutedLaws.CutOnwardIff | storage/src/silopit.c:488-544 | a list with a cut before other files is right exactly if every chunk up to the cut keeps a record, the file is cut in two, the next record lies below every key of its own file, and the list from that record on merges right into the store that stands there |
| RoutedLaws.RoutedRightIff | storage/src/silopit.c:488-567 | the exact law for every list whose keys route to files: its merge ends with the directory in order and the list overlaid exactly if each cut in turn meets that condition and the chunks behind the last one keep a record |
| RoutedLaws.RightOrSpoiled | storage/src/silopit.c:488-567 | a merge of such a list that is not right stops, or leaves a file with a record at or below the end of one before it, or loses a stored key that the list does not mention |
| AnyLists.MergeRestarts | storage/src/silopit.c:496-512 | the merge of a list that reaches behind the files is the merge of the records that route to them, cuts and all, and then the restart |
| AnyLists.MergesRightExactly | storage/src/silopit.c:488-567 | the exact law for every list: its merge ends with the directory in order and the store overlaid with the list exactly if, behind all files, every chunk keeps a record; or, all keys routing to files, each cut in turn is right; or else that holds of the records that route to files and the restart is right behind them |
| CutExample.SplitHidesKey | storage/src/silopit.c:418-460 | for every size of a chunk from 2 on: three merges from an empty store, the last of which hides a key that its list does not mention |
| CutExample.ProgramHidesKey | storage/src/silopit.c:418-460 | the same at 65536 records a chunk, with keys of three bytes |
| LookupLaws.OffsetInFinds | storage/src/silopit.c:396-409 | the search over the blocks of a sorted file gives the key's offset, or 0 |
| LookupLaws.OnlyOneFile | storage/src/silopit.c:569-579 | only the file the directory search picks can hold the key |
| LookupLaws.GetOffIsLookup | storage/src/silopit.c:569-590 | the two searches agree with the store read as one map: the offset of the key, or 0 if no file has it |
| LookupLaws.LookupLeavesName | storage/src/silopit.c:569-590 | a lookup leaves the name of the first file whose end is not below the key, finds nothing if that file is not there, and leaves the name as it was behind all ends |
| Silopits.Silopit.constructor | storage/src/silopit.c:111-184 | opens a directory with any files: the directory and filter are those of the scan |
| Silopits.Silopit.PrepareStats | storage/src/silopit.c:58-83 | counts the ADD records of a chunk and sizes their key field |
| Silopits.Silopit.Serialize | storage/src/silopit.c:228-241 | the bytes of the ADD records in order, the last key of the chunk, the node behind it |
| Silopits.Silopit.PutFile | storage/src/silopit.c:243-280 | stores block bytes and footer under the current name and enters the file into the directory |
| Silopits.Silopit.WriteMmap | storage/src/silopit.c:186-282 | writes a chunk as the specification does, or reports why it stops |
| Silopits.Silopit.WriteNextFile | storage/src/silopit.c:449-452 | takes the name numbered by the directory's size and writes a chunk under it |
| Silopits.Silopit.WriteFiles | storage/src/silopit.c:447-458 | the loop over full chunks and the last one write the pieces of the split |
| Silopits.Silopit.FlushMergeList | storage/src/silopit.c:418-460 | the chunk counts of the code are those of the split; first chunk under the old name, the others new |
| Silopits.Silopit.FlushNewList | storage/src/silopit.c:462-486 | the chunk counts of the code are those of the split, all under new names |
| Silopits.Silopit.ReadMmap | storage/src/silopit.c:284-340 | loads the current file into a fresh list with room for its records and the given number more |
| Silopits.Silopit.FlushOpenList | storage/src/silopit.c:499-504 | flushes the run under construction, if there is one |
| Silopits.Silopit.Route | storage/src/silopit.c:512-531 | brings the key's file under construction, flushing another one first |
| Silopits.Silopit.Collect | storage/src/silopit.c:512-531 | puts one record into the run of its file; there is always room |
| Silopits.Silopit.FlushList | storage/src/silopit.c:488-544 | the loop computes the walk, restart and stale index included |
| Silopits.Silopit.AddListBits | storage/src/silopit.c:550-560 | sets the filter's bits for every key a replayed list adds |
| Silopits.Silopit.Merge | storage/src/silopit.c:546-567 | computes the merge; the filter grows only for a replayed list |
| Silopits.Silopit.ReadOffset | storage/src/silopit.c:342-416 | the loop computes the search over the blocks |
| Silopits.Silopit.GetOff | storage/src/silopit.c:569-590 | computes the lookup and leaves the name of the file behind |
| Silopits.Silopit.AddHiraishin | storage/src/silopit.c:85-109 | sets the filter's bits for every key of a file |
| Silopits.Silopit.LoadFile | storage/src/silopit.c:118-162 | enters one file into directory and filter; a file without records is passed over |
| Silopits.Silopit.LoadFiles | storage/src/silopit.c:111-167 | the scan computes the reloaded directory and filter |
| Reload.ReloadRestores | storage/src/silopit.c:111-167 | in whatever order the files are listed, the scan rebuilds the same ends in the same places, each with its file and the number of records it holds |
| Reload.ScanEntersIff | storage/src/silopit.c:111-167 | for any files in any order, the scan enters nothing but listed files that have records, and the ends of the directory are exactly their last keys |
| Reload.ReloadedFilterCovers | storage/src/silopit.c:85-109 | the rebuilt filter lets every key of every file through |
| Hiraishins.SaxHash | storage/include/util.h:129-138 | the loop computes the hash on 32-bit words |
| Hiraishins.DjbHash | storage/include/util.h:152-161 | the loop computes the hash on 32-bit words, bytes from 128 on sign-extended |
| Hiraishins.HashesFromTheFront | storage/include/util.h:129-161 | both hashes take the last byte last and start from their seeds |
| Hiraishins.HashesOfAb | storage/include/util.h:129-161 | the hashes of "ab" are 3323 and 5863208, and a filter of a thousand bits marks it at 323 and 208; a byte of 255 counts as -1 in the second hash |
| Hiraishins.Hiraishin.SetBit | storage/include/util.h:62-64 | sets one bit of the array and no other |
| Hiraishins.Hiraishin.Add | storage/src/hiraishin.c:46-60 | adds exactly the two bits of the key, and counts it |
| Hiraishins.Hiraishin.Get | storage/src/hiraishin.c:62-76 | true exactly if both bits of the key are set |
| Filters.LoadBitsIff | storage/src/silopit.c:85-109 | the scan of a directory sets the bits of the keys in the listed files and no others |
| Filters.AddedBitsIff | storage/src/silopit.c:550-560 | a replayed list sets the bits of the keys it adds and no others |
| Filters.ReopenBitsIff | storage/src/index.c:84-119 | after a restart the bits are those of the keys in the files and of the keys that the log adds |
| Filters.RunBitsIff | storage/src/index.c:162-167 | a run sets the bits of the keys it puts and no others; nothing clears one |
| Filters.AbsentCodes | storage/src/index.c:211-279 | in a sound state a read without a value returns -1 exactly if the list has a tombstone of the key and the filter lets it through, and 0 otherwise |
| Filters.ParksIff | storage/src/index.c:130-170 | a write parks the list exactly if it is as long as it can be; the record then starts the next list, and the log starts empty |
| Logs.HeldValueReads | storage/src/index.c:242-271 | a record reads back as its value |
| Logs.ParseUndoesLines | storage/src/log.c:122-173 | reading the log undoes writing it, for keys that are C strings and offsets that can be decoded |
| Logs.MagicNumber | storage/src/log.c:79-90 | a fresh value file starts with the number 2013, low byte first |
| Logs.ValueFields | storage/src/log.c:238-250 | a value record is the length, high byte first, and the bytes |
| Logs.LineFields | storage/src/log.c:252-266 | a log line is the length of the key, the key, eight bytes of offset, and an A or a D |
| Logs.LineParsesAs | storage/src/log.c:122-173 | whatever a line holds, its key is cut at a NUL, and every letter but an A makes a tombstone |
| Logs.TornValueReads | storage/src/index.c:242-271 | a value whose record broke off behind its length reads as what is there and zeros up to that length; one that broke off before is none |
| Logs.LogReadsIff | storage/src/log.c:122-173 | a log can be replayed exactly if no key in it is longer than 31 bytes |
| Logs.TornLogStops | storage/src/log.c:137-164 | a log that breaks off anywhere inside its last line cannot be replayed |
| Logs.ReplayIsInsertAll | storage/src/log.c:122-173 | the replay loop is parsing the log and inserting its records in turn |
| Logs.LogRead | storage/src/log.c:99-177 | the loop inserts the parsed records into the list, or stops exactly when the log cannot be parsed |
| Logs.Log.constructor | storage/src/log.c:54-97 | opens the value file and takes its length for the next offset; a fresh one starts with four bytes, so offset 0 is never a value |
| Logs.Log.Append | storage/src/log.c:229-269 | the offset is the old length of the value file; value file and log grow by exactly the record |
| Logs.Log.Next | storage/src/log.c:280-295 | the new log is empty |
| Logs.Log.Remove | storage/src/log.c:271-278 | the log is gone |
| IndexLaws.AddKeepsInv | storage/src/index.c:130-170 | an add, with or without a rotation, keeps lists, files, offsets and filter consistent |
| IndexLaws.AddRepresents | storage/src/index.c:130-170 | an add changes what the layers hold by exactly that key |
| IndexLaws.MergeKeeps | storage/src/index.c:43-82 | a merge step that does not stop, of a list that merges right, keeps the invariant and what the layers hold |
| Liveness.RefusedIff | storage/src/index.c:43-170 | a step is refused in three cases only: an add to a full list while one is parked, a merge with nothing parked, and a merge that stops |
| Liveness.RightMergeGoesThrough | storage/src/index.c:43-82 | a parked list that merges right is merged: it is in the files, its slot is free, and nothing else has changed |
| Liveness.MergeGoesThroughIff | storage/src/index.c:43-82 | of a list that routes uniformly and cuts at most the last file it touches, the merge goes through exactly if every chunk it writes keeps a record, however long the list is |
| Liveness.RightListGoesThrough | storage/src/index.c:43-82 | any parked list that meets the exact law of the merge is merged |
| Liveness.MergeUnblocks | storage/src/index.c:141-162 | after such a merge the next add goes through |
| Liveness.EnabledRunsGoOn | storage/src/index.c:43-279 | a run that never adds to a full list with one parked, and merges only parked lists that merge right, comes to its end, and stands for the map of its operations |
| IndexLaws.RunRefinesMap | storage/src/index.c:43-279 | after any run whose merges are right or stop, the layers hold exactly what the operations wrote |
| IndexLaws.GetExact | storage/src/index.c:211-279 | a read gives the value of the map, or none, exactly unless it is stale |
| IndexLaws.ReadsAnswerLikeOneMap | storage/src/index.c:130-279 | the same for every run from an empty store |
| Witnesses.StaleReadHappens | storage/src/index.c:211-279 | a run from an empty store after which a removed key reads as its old value |
| IndexLaws.FilterHidesNothing | storage/src/index.c:220-222 | the early exit never hides a key that has a value |
| LogLaws.ValueStaysReadable | storage/src/log.c:229-250 | the offset of an added value lies behind every record written before and leads to the value after any later run, and so do all older offsets |
| LogLaws.RunKeepsLog | storage/src/index.c:130-162 | along any run the log holds the lines of its records, and trigger and records give the list |
| LogLaws.ReplayRebuilds | storage/src/log.c:99-177 | before a rotation the log rebuilds the list; after one the trigger has to go in first |
| LogLaws.LogRebuildsIff | storage/src/index.c:135-162 | the log alone rebuilds the list exactly if there was no rotation or a later record has the trigger's key; otherwise the trigger is what is missing |
| LogLaws.LogOfRunRebuildsIff | storage/src/index.c:130-162 | the same after every run from an empty store |
| Witnesses.TriggerIsLost | storage/src/index.c:135-162 | two adds into a list of one, and the empty log no longer gives the list |
| Witnesses.RestartForgetsKey | storage/src/index.c:84-162 | after two adds into a list of one, a merge, a crash and a restart the second key reads as absent |
| Recovery.ReopenRecovers | storage/src/index.c:84-128 | after a crash with no merge pending the store opens again exactly if the log is empty or merges right; then the invariant holds and the layers are the files overlaid with what the log gives, which is all there was exactly unless the last trigger is nowhere in the log; the tombstone of a key on no file is not missed |
| Recovery.ReadsAfterRestart | storage/src/index.c:84-128 | a run from an empty store, a crash and a restart, which goes through exactly if the log is empty or merges right: a read answers what one map would, exactly unless it asks for the lost trigger's key and the files say something else about it |
| Recovery.TornLogNeverReopens | storage/src/index.c:104-119 | a log that broke off inside a line keeps the store from being opened, whatever lines stand before |
| Recovery.BootedOnNothing | storage/src/index.c:84-103 | in an empty directory an index opens in the state that runs begin in |
| Lives.CloseStaysAlive | storage/src/index.c:172-206 | a clean close merges the list and removes its log: the invariant, the log and the map the index stands for are kept, and the list is empty |
| Lives.CloseGoesThroughIff | storage/src/index.c:172-189 | a close goes through exactly if the list is empty or merges right |
| Lives.CloseForgetsNothing | storage/src/index.c:172-206 | no trigger is pending after a close, so what is left of the map behind it is the map |
| Lives.CrashStaysAlive | storage/src/index.c:84-128 | a crash and a restart, which goes through exactly if the log is empty or merges right, give a sound index again, for the map as the crash leaves it: the key of a lost trigger falls back to what the files say of it |
| Lives.KeptWhole | storage/src/index.c:84-162 | a crash leaves the whole map if no trigger is lost, or only the tombstone of a key on no file |
| Lives.LivesStayAlive | storage/src/index.c:84-206 | along any number of lives, each a run that ends in a crash or a close and is opened again, the index stays sound and stands for what is left of the map |
| Lives.LifeGoesOnIff | storage/src/index.c:84-206 | after any lives and one more run, crashed or closed, the store opens again exactly if its log is empty or merges right, and then goes on with what is left of the map |
| Lives.ReadsOverLives | storage/src/index.c:84-279 | after any number of lives from an empty directory and one more run, a read answers like one map exactly unless it is stale |
| Freshness.RunKeepsFresh | storage/src/index.c:130-162 | along any run no file and no parked record refers to the last trigger's offset or one behind it |
| LiveIndexes.LiveIndex.constructor | storage/src/index.c:84-128 | opens a directory with any files, value file and log: everything up to the replay of the log |
| LiveIndexes.LiveIndex.Rotate | storage/src/index.c:143-161 | parks the list and goes on with an empty one and a new log |
| LiveIndexes.LiveIndex.Enter | storage/src/index.c:162-167 | inserts the record; the filter learns the key of an ADD only |
| LiveIndexes.LiveIndex.Add | storage/src/index.c:130-170 | computes the add step: log first, then rotation, then insertion |
| LiveIndexes.LiveIndex.MergeJob | storage/src/index.c:43-82 | computes the merge step, of which `MergeGoesThroughIff` says when it goes through |
| LiveIndexes.LiveIndex.Get | storage/src/index.c:211-279 | computes the read: filter, list, parked list, files, value file |
| LiveIndexes.LiveIndex.Recover | storage/src/index.c:104-119 | computes the rest of the reopening: replay, merge, empty list, new log; it fails exactly when the log cannot be replayed or its merge stops |
| LiveIndexes.LiveIndex.Close | storage/src/index.c:172-189 | computes the close: merges what the list holds and removes its log, or stops where the merge does |
| Hts.Ht.constructor | storage/src/ht.c:38-44 | a table that binds nothing |
| Hts.Ht.Set | storage/src/ht.c:46-59 | a new binding in front of the key's older ones; other keys untouched |
| Hts.Ht.Get | storage/src/ht.c:61-77 | the newest binding of the key |
| Hts.Ht.Remove | storage/src/ht.c:79-102 | takes out the newest binding of the key only; the size drops exactly if there was one |
| Hts.UnlinkSplits | storage/src/ht.c:87-97 | a chain through the relinked node loses exactly the node behind it |
| Levels.Level.SetHead | storage/src/level.c:36-50 | counts the node and puts it in front of the old head, which never learns of it |
| Levels.Level.RemoveLink | storage/src/level.c:52-75 | uncounts the node and states where all links and both ends of the level go; without predecessors the last node is never set |
| Levels.Level.FreeNode | storage/src/level.c:77-89 | takes count and size of the node off the account |
| Levels.HeadedVisits | storage/src/level.c:36-50 | a new head comes in front of all nodes of the level |
| Levels.UnlinkedCutsOff | storage/src/level.c:52-75 | with no predecessor set, taking out a node takes all nodes in front of it off the level too, and taking out the last one takes none off |
| Levels.UnlinkedBridges | storage/src/level.c:52-75 | with its predecessor set, a node in the middle leaves alone, and the last one stays |
| Caches.AccountWithout | storage/src/level.c:77-89 | number and size of a level's entries do not depend on the order of counting; a removal takes exactly the entry's share |
| Caches.UseAccounts | storage/src/shiki.c:57-82 | what a use does to the two accounts: nothing, or a promotion of one entry with its size |
| Caches.TouchConserves | storage/src/shiki.c:66-80 | a use conserves total count and size, keeps all keys and values, and changes the new level exactly at the fourth use |
| Caches.UseStopsIff | storage/src/shiki.c:57-82 | a use of an entry on the new level stops exactly if that level has reached its own allowance, and of one on the old level exactly if the old level has; a get and a set of a cached key are the same use |
| Caches.EnterStopsIff | storage/src/shiki.c:94-115 | a new entry stops exactly if it brings the old level up to its allowance |
| Caches.BelowNeverStops | storage/src/shiki.c:119-133 | while both levels lie below their own allowances no get stops |
| Caches.SecondFetchPromotes | storage/src/shiki.c:66-80 | a value cached just now goes to the new level with the second fetch behind that, not before, and stays there |
| Caches.RemoveForgetsOne | storage/src/shiki.c:135-151 | a removal forgets its key and leaves every other entry as it is |
| Shikis.Shiki.constructor | storage/src/shiki.c:36-55 | an empty cache |
| Shikis.Shiki.SetNode | storage/src/shiki.c:57-82 | computes one use and keeps both accounts equal to number and size of their entries; stops exactly when the entry's level has reached its own allowance |
| Shikis.Shiki.Promote | storage/src/shiki.c:73-77 | moves one node from the old account to the new one |
| Shikis.Shiki.Enter | storage/src/shiki.c:94-115 | a new entry with one use, counted on the old level, unique in the table |
| Shikis.Shiki.Set | storage/src/shiki.c:84-117 | caches a value of a new key; a value that is there is used, not replaced |
| Shikis.Shiki.Get | storage/src/shiki.c:119-133 | the cached value of the key, and one use of it |
| Shikis.Shiki.Remove | storage/src/shiki.c:135-151 | forgets the key and takes it off its level's account |
| Databases.MissKeepsCoherentIff | storage/src/db.c:77-84 | caching the answer of a miss keeps the cache coherent exactly if the read was not stale |
| Databases.RunKeeps | storage/src/db.c:53-105 | along any run every cached value is the one last written |
| Databases.CacheNeverDisagrees | storage/src/db.c:53-105 | after any run from an empty store every cached value is what the index would return, and a fetch answers like one map unless it misses and the index read is stale |
| DatabaseLaws.FetchStopsIff | storage/src/db.c:59-87 | a fetch stops exactly on a hit whose level has reached its own allowance, or with a value that brings the old level up to its own |
| DatabaseLaws.RefusedIff | storage/src/db.c:53-105 | a write is refused exactly while the list is full and one is parked, a merge exactly with nothing parked or one that stops, a fetch exactly when the cache stops, and a test for existence never |
| DatabaseLaws.EnabledRunsGoOn | storage/src/db.c:53-105 | a run whose levels stay below their own allowances, with no write that has to wait, no wrong merge and no stale fetch, comes to its end |
| DatabaseLaws.StepCounts | storage/src/db.c:59-87 | a fetch counts once, as a hit exactly if the key is cached; no other command counts |
| DatabaseLaws.RunCounts | storage/src/db.c:59-87 | over any run the two counters together count the fetches |
| DatabaseLaws.FetchTouchesOne | storage/src/db.c:59-87 | a hit leaves the index alone, a miss changes no list and no file, and neither touches another entry of the cache |
| DatabaseLaws.CommandTouches | storage/src/db.c:53-105 | a write forgets its key in the cache and no other entry; a test for existence and a merge leave the cache alone |
| Poisons.RunsWithEmptyCache | storage/src/db.c:53-105 | every run of the index is one of the database that caches nothing |
| Poisons.CacheIsPoisoned | storage/src/db.c:77-84 | a run after which a fetch of a removed key returns its old value and caches it |
| LiveDatabases.LiveDatabase.constructor | storage/src/db.c:37-51 | an index opened on the directory and an empty cache |
| LiveDatabases.LiveDatabase.Add | storage/src/db.c:53-57 | invalidates the key, then adds value or tombstone |
| LiveDatabases.LiveDatabase.Get | storage/src/db.c:59-87 | computes a fetch and its effect on cache, index and counters |
| LiveDatabases.LiveDatabase.Exists | storage/src/db.c:89-99 | asks the index only and leaves the cache alone |
| Requests.ParseResumes | server/src/request.c:151-239 | a parse that waits for a non-empty argument and is fed the rest gives exactly what parsing both at once gives, for all bytes |
| Requests.ResumesIff | server/src/request.c:177-219 | a waiting parse resumes for every continuation exactly if the remembered length is not 0 |
| Requests.ReadyAgainIff | server/src/request.c:222-236 | after a request the parser is ready for another exactly if nothing of it had arrived |
| Requests.RoomIsEnough | server/src/request.c:89-127 | with two bytes of the buffer free every header scan comes to an end inside it, whatever has arrived and whatever the parser remembers |
| RequestLaws.HeaderReads | server/src/request.c:89-127 | a length header reads back as its number |
| RequestLaws.HeaderShort | server/src/request.c:89-127 | a header whose end has not arrived is an error |
| RequestLaws.ParseUndoesEncode | server/src/request.c:151-239 | an encoded request parses to its arguments, the first in lower case, its command, and a reset state |
| Commands.CommandIff | server/src/request.c:57-69 | a request is the command whose name its first argument spells, up to a NUL and in any mixture of cases, and unknown exactly if it spells none of the nine |
| Commands.LowerIs | server/src/request.c:194-198 | a capital is kept as the small letter at its place in the alphabet, any other byte as it is |
| Grammars.HeaderReadsIff | server/src/request.c:89-127 | a header is read exactly where there is a sign or a CR, then digits and CRs in any order with a CR somewhere, up to a LF; its number is that of its digits |
| Grammars.EndsAreNotLookedAt | server/src/request.c:188-215 | whatever two bytes stand behind each argument, a request parses like the one with CR LF there |
| Grammars.StatusTells | server/src/request.c:151-239 | a parse that does not complete keeps all bytes, and stands where no header can be read, in front of an argument that has not arrived, or in front of one without a slot |
| RequestLaws.PrefixWaitsIff | server/src/request.c:173-220 | a prefix of a request is waited on with nothing lost exactly if it ends behind the header of a non-empty argument and no later than its payload |
| RequestLaws.PiecesParseLikeWhole | server/src/request.c:138-239 | a request appended in any number of pieces cut at such places parses like the whole |
| RequestLaws.EmptyArgumentIsLost | server/src/request.c:177-219 | a request with an empty argument, cut behind that argument's header, is waited for although nothing is missing any more once the rest comes; in one piece it is complete |
| RequestLaws.SecondRequestOverruns | server/src/request.c:173-239 | of any two requests in one buffer the first is complete, and parsing the second then runs behind its argument array |
| LiveRequests.LiveRequest.constructor | server/src/request.c:74-87 | an empty, zeroed request |
| LiveRequests.LiveRequest.Append | server/src/request.c:138-149 | appends the bytes, or refuses exactly when they do not fit |
| LiveRequests.LiveRequest.StateLen | server/src/request.c:89-127 | the loop computes the header scan and moves the position only on success |
| LiveRequests.LiveRequest.ToLower | server/src/request.c:194-198 | turns A-Z into small letters in place and changes nothing else |
| LiveRequests.LiveRequest.Lookup | server/src/request.c:200-207 | the command of the lookup function, of which `CommandIff` says which one that is |
| LiveRequests.LiveRequest.TakeArg | server/src/request.c:188-215 | takes one argument |
| LiveRequests.LiveRequest.Finish | server/src/request.c:222-236 | moves what is left to the front and clears the rest, or resets |
| LiveRequests.LiveRequest.ParseArgs | server/src/request.c:173-239 | the loop computes the argument loop of the specification, and tells where it would write behind the argument array |
| LiveRequests.LiveRequest.Parse | server/src/request.c:151-239 | status and state are those of the specification, for every state of the parser whose header scans come to an end in the buffer |
| Responses.Detach | server/src/response.c:45-92 | appends the printed response, of which `ClientReadsPrint` says what it reads as |
| Responses.DetachArgs | server/src/response.c:77-91 | the loop prints one line group for each string |
| Responses.ParseUndoesPrintIff | server/src/response.c:70-91 | the parser gives back a printed list of strings exactly if there are at least two |
| ReplyReaders.ClientReadsPrint | server/src/response.c:45-92 | a client's reader of lines, errors, nothing, strings and lists reads every printed response back as its meaning, for every status and every array of strings |

## Left out

- MergeCorrect: lists that route partly behind the files, and lists whose merge cuts a file before another existing file is touched, are outside its premise; `MergesRightExactly` is the exact law for them.
- MergesRightIff: gives the condition for lists that cut at most the last file they touch, from the list alone; all others are those of `MergesRightExactly`.
- CutMergeIff: the run that the record lands in is not cut itself; `CutOnwardIff` has no such premise.
- CutMergeGoesOnIff: the same, and what the merge of the rest writes has to fit into the directory and the byte format.
- MergesRightExactly: what is written on the way has to fit into the directory and the byte format, and a chunk has at least two records (the program's have 65536); the same holds for `RoutedRightIff`, `CutOnwardIff`, `StrayNeverRight` and `RightOrSpoiled`.
- ReadsAnswerLikeOneMap: every merge of the run must be right or stop the process; `MergesRightExactly` says which are right.
- CacheNeverDisagrees: fetches that miss must not be stale; one that is breaks coherence, as `MissKeepsCoherentIff` states.
- ReopenRecovers: one log only; with two, the program replays them in the order the directory lists them, which the code does not determine.
- ReadsAfterRestart: no merge is pending at the crash, and the merge of what the log gives, if it gives anything, must be right or stop the process.
- ReadsOverLives: the same at the end of every life, and for the merge of a close.
- ReadUndoesWrite: for chunks whose ADD keys have one length; `LayoutFaithfulIff` shows that no weaker demand on the keys will do.
- WriteMmap: the program does not check for a full directory; where it has to insert a node and would write past the array the model stops with a fault.
- LoadFiles: wants room in the directory for every listed file, for the same reason; a footer that fails its checksum is not modelled, because files are only changed by the program.
- Parse: every header scan has to come to an end inside the buffer; in a full one it may run past it. The other states of the parser are all covered. Numerals are not bounded; from 2^31 on the result of atoi is undefined.
- ReadyAgainIff: a second request in one buffer is parsed up to the first argument that would be stored behind the new argument array; there the model stops with a status of its own, as `SecondRequestOverruns` states, because what such a write hits depends on the allocator.
- ExtendBy: totals up to 2^30 only; beyond that the next power of two is not an int, as `NextPowerIsIntIff` states.
- Append: like `Serialize`, it builds its bytes as byte strings and not through the buffer class, so what is proved of the buffer is not connected to the bytes of a file; a value or log file is a byte sequence.
- WriteFiles: the bytes that the buffer holds behind the data are modelled (a short file takes them along); bytes beyond its allocation read as zero.
- HashesOfAb: known words only; what the mixing steps do to other words is their definition.
- EnabledRunsGoOn: merges that stop although they are not right end a run, and of the database's runs no fetch that misses may be stale.
- SetNode: eviction itself is not modelled, because the links it follows are never set; the step reports that the process stops.
- Enter: the copy of a key that the cache keeps has no NUL of its own; the model takes it to end where its length says.
- Pool accounting of the skip list: nodes come from a growing pool and memory never runs out.
- Names of files are decimal numerals with a suffix; directories, paths and permissions are not modelled.
- Real interleavings of the merging thread with readers and writers, and the lsn check that guards a file while it is rewritten.
- mmap, fsync, lseek, partial reads and writes, and I/O errors; a panic ends the run.
- A value whose bytes end before its length does reads as zeros behind them, as the calloc'ed buffer would (`TornValueReads`); such a value never arises in a run.
- index_allcount, statistics, dump and info functions, the event loop, sockets and command dispatch.
- The numbers of log files: a log that is removed or switched is gone, whatever its number.
