# Verified models of a systems-programming course repository

This project models five programs of the repository in Dafny and proves what each is for.

**The text search engine (PA1).** One pass over a text builds a lexicon (a chained hash
table with the links inside its entries), 256 bucket files of 12-byte occurrence records
and a table of line offsets. Queries are answered from these through lazily made per-word
cache files, sorted merges, and a check of phrase candidates against the text. `NaiveScan`
defines, independently, what a scan of every line answers, and `AnswerMeaning` says what each
kind of query prints in terms of bytes alone: the printed answer, read back, lists exactly
the places or lines asked for. `Query.Search` is the result:
for every text, every input of queries and every way the reads may be split, the program's
output is the sequence of naive answers, unless it stops with an error. It does so exactly
when a read of a cache or line-set file ends inside a 12- or 4-byte cell; the output is then
the answers of the queries before, followed by a front part of that one's. Files are byte
sequences, and `read` returns an arbitrary non-empty prefix of what is left.

**The seat reservation server (PA3).** A transition system of the main thread and any
number of workers, one step per lock, unlock or guarded access. `Reservation` is the
program; `ReservationTheorems` states what holds in every state of every run: a user is
logged in iff exactly one connection owns the session, a listing of booked seats is the
user's exact set of seats throughout the scan, there is no circular wait and no deadlock,
each seat's history alternates and its counters balance, slots stay valid, chosen sets have
room and no connection is lost. `Requests` and `Replies` follow each request to the reply
that is sent: a worker gets there in at most 417 moves of its own, every reply is the one the
request deserves by what the worker found at the deciding step (the user table, the flag, the
password, the seat), listings show each seat as it was found, and the connection's session
ends up as the reply says.

**The bounded queue (week13).** A ring buffer that refines a FIFO, and the producer,
consumer, mutex and condition variables over that ring as a transition system: no wake-up
is lost, and every run ends with all values transferred in order.

**The shell's tokenizer (week7)** and **the job table of the other shell (PA2)**, each
imperative and proved against its abstract form.

## How the search engine is put together

| module | role |
|---|---|
| Options, Bytes, Text, Files, Output, Records | optional values, bytes and hashing, lines and tokens, buffered I/O, printing, record cells |
| NaiveScan | the answers, defined by scanning every line |
| LexiconTable, Buckets, LineTable, Postings, IndexBuild | the index and what its files must hold |
| Scan, WordCache, Readers, LineSources, Intersection | scanning with carry, word caches, cursors, merging |
| PostingAnswers, PhraseAnswers, LineAnswers | posting lists say what the naive scan says |
| WordChoice, StreamQuery, MultiQuery, PatternQuery, Query | the query handlers and the session |
| ReadBack, AnswerMeaning | reading a printed answer back, and what it says of the text |

Assumptions about the text are those of the 32-bit fields it is stored in: `TextFits` asks
that line numbers, line lengths and distinct words fit 32 bits and the text's length 64.
A query longer than 4096 bytes ends the session, as in the program.

How the reads of the query cursors arrive is a parameter: an object of class `Files.Reads`
holds a plan of sizes, and every way of splitting them is some plan. It counts, for the
proof only, the reads that ended inside a cell.

Two places where the code, not its description, is followed:

- A query with a quote that is not a proper quoted phrase gets the blank line
  (PA1/query.c:713); the test oracle strips the outer bytes blindly.
- The two cursors fail when a read ends inside a cell (PA1/query.c:281, PA1/query.c:340),
  although the two scans carry the partial record over. So the program does not give the
  naive answer for every split of its reads: `Query.ShortReadFails` exhibits a one-letter
  text, a query and a split for which it fails, and `PatternQuery.HandlePattern` shows that
  every pattern of two words of the text does when its first read brings a single byte.
  The cursors fail exactly when a read is due that ends inside a cell
  (`Readers.OccurrenceReader.Next`), the handlers and the session exactly when some cursor
  read of theirs does, and never when every read brings whole cells or all it can
  (`Reads.Aligned`), be it ever so short.

## Model

| member | source | states |
|---|---|---|
| Query.Search | PA1/main.c:43-111 | the whole program: for every text that fits and every query input, however its reads are split, the output is the concatenation of the naive answers of the queries up to the exit word or an over-long line, and the exit is the right one; it fails exactly when a cursor read ends inside a cell, having printed the answers of the earlier queries and a front part of the next |
| Query.Serve | PA1/main.c:55-104 | the query loop over an intact index, whatever was asked before: all answers, or a failure exactly at the first cursor read that ends inside a cell |
| Query.ServeOne | PA1/main.c:56-103 | one turn of the loop: a query more is answered and flushed, or the session is over as it should be |
| Query.HandleQuery | PA1/query.c:1138-1160 | any query of at most 4096 bytes appends exactly its naive answer and leaves the index intact for the next one; it fails exactly when a cursor read ends inside a cell, and then has appended a front part of that answer |
| Query.ShortReadFails | PA1/query.c:267-289 | over the text `a`, the query `a*a` fails when every cursor read brings one byte |
| Query.OnlyNewlineLast | PA1/query.c:55-58 | an answer contains one newline and it is its last byte |
| Query.CountQueryWords | PA1/query.c:1108-1135 | the number of maximal runs in the query and the place of the first |
| Query.AskedExact | PA1/main.c:58-95 | the queries answered are the lines before the first that is too long or says PA1EXIT, and only a line that is too long makes the session end badly |
| AnswerMeaning.WordAnswer | PA1/query.c:683-704 | a query of one word prints exactly the places where the word stands between blanks, but for case, in order, and nothing else |
| AnswerMeaning.PhraseAnswer | PA1/query.c:707-750 | a phrase in quotes, spaces inside included, prints exactly the places where the phrase stands between blanks, but for case, in order |
| AnswerMeaning.PatternAnswer | PA1/query.c:984-1105 | `a*b` prints exactly the lines where `a` stands before `b`, in order |
| AnswerMeaning.WordsAnswer | PA1/query.c:802-946 | a query of several words prints exactly the lines where all of them stand, in order |
| AnswerMeaning.OtherAnswer | PA1/query.c:1138-1160 | every other query prints the newline alone |
| AnswerMeaning.FoldsAlike | PA1/util.c:100-110 | folding makes alike exactly the strings that differ in the case of ASCII letters only |
| AnswerMeaning.WordStands | PA1/index.c:172-190 | a word stands at a place iff a maximal run there spells it |
| ReadBack.ItemsReadBack | PA1/query.c:55-80 | what is printed determines the items: a reader that knows only digits, colon, space and newline gets them all back |
| NaiveScan.QuotedPhraseExact | PA1/query.c:713-722 | a query is read as the phrase p iff it is p in quotes, p neither empty nor beginning or ending with a separator nor holding a quote |
| NaiveScan.StarredPairExact | PA1/query.c:998-1005 | a query is read as the pair a, b iff it is a, star, b, both non-empty and without star or separator |
| NaiveScan.PassingLinesExact | PA1/more_tests/run_tests.py:95-102 | the reference answer lists strictly ascending line numbers, exactly those of the passing lines |
| IndexBuild.BuildIndex | PA1/index.c:250-298 | one pass over any text, however its reads are split, gives a valid index: buckets, lexicon and offsets all agree with the text |
| IndexBuild.TakeLine | PA1/index.c:261-279 | one line goes into the lexicon, the buckets and the offset table, and they stay in agreement |
| IndexBuild.Builder.ProcessLine | PA1/index.c:169-206 | the occurrences of a line, and only they, are recorded in order |
| IndexBuild.Builder.AddOccurrence | PA1/index.c:191-201 | the word gets its id and its record goes to its bucket; all other files keep meaning the same |
| IndexBuild.Finish | PA1/index.c:286-297 | after flushing, the files hold what the pass has written |
| IndexBuild.FilesOkStep | PA1/index.c:195-201 | learning a word and appending one record keeps all 256 files equal to their share of the occurrences |
| LexiconTable.Lexicon.FindOrAdd | PA1/index.c:101-152 | the table is a map from folded words to dense ids: known words keep their id, a new word gets the next one, however often the table is rehashed |
| LexiconTable.Lexicon.Rehash | PA1/index.c:4-25 | rebuilding the chains changes no word, id or cache and keeps the load below 3/4 |
| LexiconTable.Lexicon.RelinkEntry | PA1/index.c:11-19 | moving one entry keeps every chain of the new table right |
| LexiconTable.Lexicon.Lookup | PA1/index.c:85-98 | finds the entry of the folded word iff there is one |
| LexiconTable.Lexicon.FindExisting | PA1/index.c:155-166 | succeeds iff the folded word is known, with its id and bucket |
| LexiconTable.Lexicon.Insert | PA1/index.c:118-151 | a new word goes to the front of its chain with the next id |
| LexiconTable.WalkVisitsSlot | PA1/index.c:86-97 | following the links of a slot visits exactly the entries of that slot |
| LexiconTable.MembersExact | PA1/index.c:86-97 | those indices are strictly decreasing, which is why a lookup ends |
| LexiconTable.FollowChain | PA1/index.c:86-97 | a chain walk that fails has excluded every entry of the table |
| LexiconTable.Lexicon.SetCache | PA1/query.c:178-179 | recording a cache changes one entry's cache and nothing about the words |
| Postings.TextOccsExact | PA1/index.c:169-206 | the occurrences of a text are exactly the maximal runs of non-separators with their folded words |
| Postings.TextOccsOrdered | PA1/index.c:250-279 | occurrences are recorded in strictly increasing (line, start) order |
| Postings.BucketScanIsWord | PA1/query.c:117-121 | scanning a word's bucket for its id yields exactly the word's own records: nothing foreign, nothing lost |
| Postings.PostingExact | PA1/query.c:139-181 | a posting list is strictly increasing and holds exactly the runs that spell the word |
| Postings.BucketRecordsStable | PA1/index.c:101-152 | later words change no record already written |
| LineTable.LineAt | PA1/index.c:268-275 | line k lies between the stored offsets k and k+1, newline included |
| LineTable.ReadLine | PA1/index.c:306-343 | reading line k back gives that line unchanged; a number that is no line's is refused |
| LineTable.LineWriter.Add | PA1/index.c:268-278 | each line appends the offset of its end |
| LineTable.ReadOffset | PA1/index.c:301-303 | an offset is read back as it was stored; an index outside the table is refused |
| LineTable.ReadAt | PA1/io.c:23-43 | positioned reads deliver the stretch whatever pieces arrive, and fail exactly when bytes are asked for that the file does not have |
| Buckets.BucketSet.Write | PA1/index.c:199-201 | a record goes to one bucket and leaves the other 255 alone |
| Buckets.BucketSet.FlushAll | PA1/index.c:291-295 | the files then hold all that was written |
| Text.LinesRejoin | PA1/io.c:52-93 | splitting into lines loses nothing and no line holds a newline |
| Text.TokensAreRuns | PA1/index.c:172-190 | the scan yields exactly the maximal runs of non-separators, in order |
| Text.TokenCount | PA1/query.c:803-804 | n bytes hold at most (n + 1) / 2 words, so the word arrays suffice |
| Text.FindSepsEnd | PA1/index.c:180-182 | the end of a run of separators |
| Text.FindWordEnd | PA1/index.c:187-190 | the end of a run of word bytes |
| Files.LineReader.ReadLine | PA1/io.c:53-93 | for every split of the input into reads, the next newline-separated line, a last one without newline included |
| Files.LineReader.NextPiece | PA1/io.c:60-91 | one stretch of the line and whether a newline ended it |
| Files.OutBuf.WriteData | PA1/io.c:116-141 | appends exactly the data, flushing as needed |
| Files.OutBuf.WriteFull | PA1/io.c:4-20 | partial writes add up to all of the data |
| Files.OutBuf.Flush | PA1/io.c:102-113 | moves the buffered bytes to the file and loses none |
| Files.FileHandle.Read | PA1/io.c:63-75 | a read returns a non-empty prefix of what is left, nothing only at the end |
| Output.WriteU32 | PA1/io.c:149-171 | prints the decimal digits of the number |
| Output.DecimalRoundTrip | PA1/io.c:149-171 | the printed digits determine the number, without leading zeros |
| Output.EmitLineRef | PA1/query.c:61-72 | prints `line:start ` for an occurrence |
| Output.EmitLineNo | PA1/query.c:75-80 | prints the number and one space, which is what keeps numbers apart when the answer is read back |
| Bytes.HashLowerBytes | PA1/util.c:87-97 | the 32-bit hash of the folded word, so equal-ignoring-case words hash alike |
| Bytes.CaseEqualBytes | PA1/util.c:100-110 | true iff the folded strings are equal |
| Bytes.ContainsChar | PA1/util.c:61-71 | true iff the byte occurs |
| Bytes.MoveBytes | PA1/util.c:15-33 | overlap-safe move: the destination holds what the source range held before, the rest is unchanged |
| Records.RecordRoundTrip | PA1/pa1.h:64-68 | a record's 12 bytes decode to the record |
| Records.RecordFileCut | PA1/query.c:270-289 | a read that ends between records holds the next records and leaves the later ones |
| Scan.ScanFile | PA1/query.c:83-130 | every split of a file into reads hands the same whole records to the consumer in order; it succeeds iff no bytes are left over |
| Scan.ScanStep | PA1/query.c:94-127 | one refill with carry below 12 bytes: the records so far and the bytes pending always make up the file |
| Scan.ChunkRecords | PA1/query.c:112-121 | the whole records of carry plus read are the next records of the file |
| Scan.DecodeRecordFile | PA1/query.c:184-251 | a file written from records decodes to those records |
| Scan.Consumer.Consume | PA1/query.c:133-137 | each record makes the cache, output or phrase consumer write exactly what it should |
| Scan.PhraseMatch.Fetch | PA1/query.c:467-472 | the buffered line is the record's line, fetched again only when the line changes |
| Scan.PhraseMatch.Holds | PA1/query.c:474-483 | the phrase matches at the candidate and ends at a separator or the line's end |
| WordCache.EnsureWordCache | PA1/query.c:140-181 | afterwards the word has its cache, earlier caches stay, and the index is intact |
| WordCache.BucketHoldsPosting | PA1/query.c:83-130 | a bucket file filtered by id is the word's posting list |
| WordCache.CacheHolds | PA1/query.c:178-179 | in an intact index a cache file holds the word's posting list and its count modulo 2^32 |
| WordCache.CacheKeepsId | PA1/query.c:117-137 | the cache writer keeps and counts exactly the records with its id |
| Readers.OccurrenceReader.Next | PA1/query.c:266-295 | delivers the file's records one by one; fails exactly when a read is due that ends inside a record, so never when reads bring whole records |
| Readers.OccurrenceReader.Fill | PA1/query.c:267-289 | fails exactly when the read ends inside a record, stated before the read and after it |
| Readers.LineNumberReader.Next | PA1/query.c:325-354 | delivers the stored line numbers one by one; fails exactly when a read is due that ends inside a number |
| Readers.LineNumberReader.Fill | PA1/query.c:326-348 | fails exactly when the read ends inside a number |
| LineSources.LineNumberSource.Next | PA1/query.c:387-430 | delivers each line of a word once, or the next stored line; fails exactly when a read ends inside a cell |
| LineSources.SkipLine | PA1/query.c:962-981 | moves to the first record after the current line's group; fails exactly when a read ends inside a record |
| Intersection.Intersect | PA1/query.c:554-652 | writes the common lines of two ascending streams, in order, and counts them modulo 2^32; fails exactly when a read ends inside a cell, with a front part written |
| Intersection.Round | PA1/query.c:573-594 | one merge step keeps `written plus what the sources still offer in common`; fails exactly when a read ends inside a cell |
| Intersection.CommonMembers | PA1/query.c:554-652 | the common part is ascending and is the intersection |
| PostingAnswers.PostingPrintsWord | PA1/query.c:683-704 | a word's posting list prints as the naive references of the word |
| PhraseAnswers.PostingPrintsPhrase | PA1/query.c:707-750 | checking the first word's postings prints exactly the positions found by trying every byte offset |
| PhraseAnswers.WordStartsSuffice | PA1/query.c:725-733 | no phrase position is missed by looking only at starts of its first word |
| PhraseAnswers.CarriesFirstWord | PA1/query.c:725-733 | where a phrase matches, its first word is the word that starts there |
| LineAnswers.GroupsExact | PA1/query.c:387-414 | grouping an ordered posting list gives its lines, each once, ascending |
| LineAnswers.GroupsArePassing | PA1/query.c:387-414 | those are the lines that have the word |
| LineAnswers.CommonIsPassing | PA1/query.c:554-652 | intersecting the lines of two word sets gives the lines of their union |
| LineAnswers.JoinedExact | PA1/query.c:1034-1094 | the first-left, last-right test finds exactly the lines with some left occurrence before some right one, ascending and once each |
| LineAnswers.JoinedIsPassing | PA1/query.c:1034-1094 | the join of two words' postings lists the lines that have them in order |
| WordChoice.CollectQueryWords | PA1/query.c:753-799 | the distinct known ids with their buckets, in order of first appearance; fails iff some word is unknown; never runs out of room |
| WordChoice.DistinctExact | PA1/query.c:778-789 | each word once, none missing |
| WordChoice.SortBySize | PA1/query.c:655-680 | the two arrays end up holding the sorted pairs |
| WordChoice.InsertPick | PA1/query.c:658-679 | one insertion shifts the larger ones up and leaves the rest alone |
| WordChoice.SortedExact | PA1/query.c:655-680 | sorting is a permutation of (id, bucket) pairs, ordered by cached size |
| MultiQuery.HandleMulti | PA1/query.c:802-946 | the lines that have all the words, and the blank line when a word is unknown; fails exactly when a cursor read ends inside a cell, with a front part of the answer printed |
| MultiQuery.MergeMany | PA1/query.c:857-945 | staged merges through line-set files, stopping early, give the lines of all words; they fail exactly when a cursor read ends inside a cell |
| MultiQuery.MergeStage | PA1/query.c:894-938 | one stage holds the lines common to one more word, and an empty stage means an empty answer; it fails exactly when a cursor read ends inside a cell |
| MultiQuery.MergeTwo | PA1/query.c:834-855 | two words merge into the answer; this fails exactly when a cursor read ends inside a record |
| MultiQuery.PrepareWords | PA1/query.c:811-821 | the chosen words are the query's, cached, rarest first |
| MultiQuery.SortedByRarity | PA1/query.c:655-680 | with all caches made, sorting by stored count sorts by the number of occurrences modulo 2^32 |
| MultiQuery.UnknownMatchesNone | PA1/query.c:811-813 | a query with an unknown word matches no line |
| MultiQuery.OutputSource | PA1/query.c:536-551 | prints every line of a source once; fails exactly when a read ends inside a cell, with a front part printed |
| StreamQuery.HandleSingle | PA1/query.c:683-704 | every occurrence of the word, as the naive scan lists them |
| StreamQuery.HandlePhrase | PA1/query.c:707-750 | for a phrase p in quotes, every position of p; the blank line for any query that is not a proper phrase in quotes |
| StreamQuery.SearchPhrase | PA1/query.c:725-750 | the search driven by the first word's postings is complete and sound |
| StreamQuery.StreamPosting | PA1/query.c:184-251 | the consumer gets the whole posting list, from a cache made on demand |
| StreamQuery.UnknownWord | PA1/query.c:690-692 | a word the lexicon does not know occurs nowhere |
| PatternQuery.HandlePattern | PA1/query.c:984-1105 | for a, star, b, the lines with a before b; the blank line for any query that is not two words around one star; fails exactly when a read ends inside a record, as it does for two words of the text when the first read brings one byte |
| PatternQuery.Join | PA1/query.c:1021-1105 | the merge join over two readers prints the join of their records; fails exactly when a read ends inside a record, with a front part printed |
| PatternQuery.JoinRound | PA1/query.c:1034-1094 | each round keeps `printed plus join of what is pending`, with both readers at the start of a line group; fails exactly when a read ends inside a record |
| PatternQuery.TakeBoth | PA1/query.c:1050-1093 | both groups of a common line are passed and the line matches iff first left < last right; fails exactly when a read ends inside a record |
| PatternQuery.TakeLast | PA1/query.c:1069-1084 | the start of the last record of the group; fails exactly when a read ends inside a record |
| PatternQuery.ParsePattern | PA1/query.c:997-1006 | yields the pair a, b iff the query is a, star, b, and nothing iff it is no such query |
| ReservationTheorems.Always | PA3/server/pa3_server.c:191-269 | the invariant holds in every state of every run |
| ReservationTheorems.OneSession | PA3/server/handle_request.c:86-142 | in every run a user is logged in iff exactly one connection owns the session |
| ReservationTheorems.NoDeadlock | PA3/server/handle_request.c:61-84 | in every run, whoever waits for a held lock is at the start of a chain of waiters, each owner waiting for the next lock, whose last owner can step whatever the environment does |
| ReservationTheorems.NoCircularWait | PA3/server/handle_request.c:61-84 | in every run, among any locks there is one whose owner, if any, waits for none of them |
| ReservationTheorems.SnapshotExact | PA3/server/handle_request.c:206-226 | the booked list is the user's exact set of seats in every state of the scan |
| ReservationTheorems.BookedSetStable | PA3/server/handle_request.c:206-226 | during a listing no step of any thread changes the user's set of seats |
| ReservationTheorems.BookedIdsExact | PA3/server/handle_request.c:208-220 | the list is ascending and holds exactly the ids of the seats the user holds |
| ReservationTheorems.SeatLedger | PA3/server/handle_request.c:167-183 | in every run each seat's history is in order and its counters balance while its mutex is free |
| ReservationTheorems.SlotStaysValid | PA3/server/pa3_server.c:240-254 | the slot used after unlocking is still the request's connection, and the only one with its descriptor |
| ReservationTheorems.RoomWhenAdding | PA3/server/pa3_server.c:348-353 | a chosen set still has room when the connection is added; sets stay within their arrays |
| ReservationTheorems.NoneLost | PA3/server/pa3_server.c:122-184 | in every run the open connections are exactly those in the sets and the one being placed |
| ReservationTheorems.ScanPicksLeast | PA3/server/helper.c:155-171 | when a scan is over, the set settled on is the first of the smallest with room, and none is only if none has room |
| ReservationTheorems.RepliesTrue | PA3/server/handle_request.c:61-317 | in every run, under the lock a reply was found under: a login's flag is set and its password is the user's, a logout's flag is cleared, a login is refused as active, or for its password, only if that is so, a refusal for an unknown user means no user of that name, and statistics are the seat's own |
| Replies.ReplyGrounded | PA3/server/handle_request.c:61-374 | in every run each reply sent, other than a listing, was decided in a state in which the worker was at the deciding step under its locks, and is the right one there: success of a login iff the user is new, or logged out and the password is the user's; of a booking iff the seat is free; of a cancellation iff the asker holds it; statistics of the seat asked for; every refusal with its own reason |
| Replies.PrecheckExact | PA3/server/handle_request.c:86-104 | a request passes the checks made before any lock iff no early refusal is due, and is else refused with one that is |
| Replies.ListingSeen | PA3/server/handle_request.c:206-226 | in every run a listing sent answers a listing request, its ids ascend, no seat is passed over, and a seat is listed iff it was free, or the asker's, in the states in which the worker stood at it |
| Replies.SessionSettled | PA3/server/handle_request.c:86-317 | a login answered with success makes its user the connection's, a logout answered with success leaves none, any other answer leaves the connection as it was |
| Replies.LoginTakes | PA3/server/handle_request.c:86-142 | when a login is answered with success its user is logged in, on this connection |
| Requests.SeatDecision | PA3/server/handle_request.c:144-279 | in every run a booking succeeds iff it finds the seat it names free, a cancellation iff it finds that seat held by the user who asks, else each is refused with its own reason; a success changes holder, counter and history by exactly that one event while the seat is locked, a refusal changes nothing, and the event stays in the history |
| Requests.RequestKept | PA3/server/pa3_server.c:240-254 | a request is handled as it was received, in the slot of its own connection, and that connection is answered; it is given up only if the connection has no slot |
| Requests.RequestAdvances | PA3/server/pa3_server.c:191-269 | in every run each move of a worker brings its request nearer to the answer, or a dropped connection nearer to its end, within 417 moves, unless the full user table ends the program |
| Requests.DroppedGone | PA3/server/pa3_server.c:144-184 | in every run a dropped connection is out of its worker's set when the set is unlocked |
| Requests.UserKept | PA3/server/helper.c:81-104 | in every run a user keeps the name and password it was added with |
| ReservationTheorems.RunsExist | PA3/server/pa3_server.c:271-298 | the server starts with any number of workers |
| LockDiscipline.ProgramOrderly | PA3/server/handle_request.c:68-76 | every move of a worker takes locks in the order poll set, array, user, seat, and releases only what it holds |
| LockDiscipline.WorkerLocksStep | PA3/server/pa3_server.c:176-184 | each lock is owned by the thread whose program counter says so |
| LockDiscipline.MainLocksStep | PA3/server/helper.c:155-171 | the main thread holds one poll lock at a time |
| LockDiscipline.HeldByOne | PA3/server/handle_request.c:68-76 | mutual exclusion |
| LockDiscipline.SomeHolderRuns | PA3/server/pa3_server.c:35-45 | the chain of waiters from any held lock climbs in rank and ends at a thread that does not wait |
| ServerCore.MoveKeepsRely | PA3/server/handle_request.c:161-183 | a move within the mover's locks leaves alone what the other threads rely on |
| ServerCore.CoreWorkerStep | PA3/server/pa3_server.c:191-269 | worker steps keep locks, names, sets and every thread's facts |
| ServerCore.CoreMainStep | PA3/server/pa3_server.c:330-355 | main-thread steps do |
| ServerCore.FreshKept | PA3/server/handle_request.c:131-137 | nobody can lock a user that is just being added |
| ServerCore.MainHasRoom | PA3/server/helper.c:155-171 | the smallest set found with room keeps its room until it is used |
| ThreadFacts.FactsStable | PA3/server/handle_request.c:206-226 | what a worker knows at a program counter survives the moves of all others |
| ThreadMoves.ProgramOk | PA3/server/handle_request.c:349-374 | a worker's own move keeps its facts and touches only what its locks cover |
| Sessions.SessionExclusive | PA3/server/handle_request.c:86-142 | logged in iff owned, and owned once |
| Sessions.ClearIsRight | PA3/server/pa3_server.c:30-46 | the unconditional clear on disconnect ends this connection's session and no other |
| Sessions.SessionCheckPasses | PA3/server/handle_request.c:78-81 | inside a session the logged-in test never fails |
| Sessions.DroppedUserFound | PA3/server/pa3_server.c:35-40 | the user of a dropped connection is always found |
| Sessions.SessionsWorkerStep | PA3/server/handle_request.c:283-317 | login, logout and disconnect keep exclusivity under every interleaving |
| SeatHistory.Alternates | PA3/server/handle_request.c:167-177 | every cancellation follows a booking by the same user |
| SeatHistory.Balance | PA3/server/handle_request.c:263-273 | bookings minus cancellations is 1 for a held seat and 0 for a free one |
| SeatHistory.SeatConserved | PA3/server/handle_request.c:161-183 | with the seat's mutex free the 64-bit counters differ by that amount, modulo wrap-around |
| SeatHistory.SeatsWorkerStep | PA3/server/handle_request.c:257-277 | every step keeps counters and history in step, one event behind at most inside the section |
| Connections.FdsWorkerStep | PA3/server/pa3_server.c:144-184 | closing and removing keep live descriptors open and distinct |
| Connections.FdsMainStep | PA3/server/pa3_server.c:335-353 | accepting and placing do, although numbers are reused |
| Connections.LookupIsExact | PA3/server/pa3_server.c:48-55 | looking a descriptor up finds its own slot |
| ServerTables.UserTable.Find | PA3/server/helper.c:74-79 | the first user of that name, if any |
| ServerTables.UserTable.Add | PA3/server/helper.c:81-104 | appends a logged-out user with that name and password; a full table refuses |
| ServerTables.AddKeepsDistinct | PA3/server/handle_request.c:110-131 | adding only unknown names keeps names distinct, so a lookup's first match is the only one |
| ServerTables.PollSet.Add | PA3/server/pa3_server.c:122-140 | appends a connection without a user unless the set is full |
| ServerTables.PollSet.RemoveAt | PA3/server/pa3_server.c:158-169 | the last slot takes the removed one's place |
| ServerTables.WithoutDropsOne | PA3/server/pa3_server.c:158-169 | removal drops exactly one (descriptor, user) pair |
| ServerTables.WithoutKeepsOthers | PA3/server/pa3_server.c:158-169 | the wake slot and every other slot stay where they are |
| ServerTables.PollSet.Find | PA3/server/pa3_server.c:48-55 | the first slot with the descriptor |
| ServerTables.PollSet.constructor | PA3/server/helper.c:141-153 | a new set polls the wake pipe alone |
| RingQueue.Ring.Put | week13/w13.c:104-112 | appends to the FIFO |
| RingQueue.Ring.Get | week13/w13.c:134-147 | takes the oldest value; an emptied ring starts again at index 0 |
| RingQueue.PutRefines | week13/w13.c:104-112 | on the ring's fields, a put appends to the queued values and keeps the indices right |
| RingQueue.TakeRefines | week13/w13.c:134-147 | a get removes the oldest value, also when the indices go back to zero |
| ProducerConsumer.ProducerKeeps | week13/w13.c:95-122 | the producer's steps keep the invariant: values in order, counts, no lost wake-up |
| ProducerConsumer.ConsumerKeeps | week13/w13.c:125-162 | the consumer's steps do |
| ProducerConsumer.ValuesInOrder | week13/w13.c:75-90 | in every run the values taken are 0..g-1, the queued ones g..p-1, and 0 <= p-g <= capacity |
| ProducerConsumer.NeverBothAsleep | week13/w13.c:100-102 | in every run the two threads are never asleep together |
| ProducerConsumer.WokenGoesOn | week13/w13.c:131-133 | a woken thread never has to wait again for the same value |
| ProducerConsumer.RunsEnd | week13/w13.c:75-90 | every run takes at most 16 n + 10 steps |
| ProducerConsumer.StuckIsDone | week13/w13.c:75-90 | a state without a step is the end, with the values 0..n-1 taken in order |
| ArgParser.ParseArgs | week7/w7.c:355-446 | splitting in place fails iff there are more than 99 tokens; otherwise the arguments are the line's maximal tokens, ended by a null |
| ArgParser.Retokenize | week7/w7.c:355-446 | joining the tokens with spaces and splitting again gives the same tokens |
| ArgParser.WordIsOneToken | week7/w7.c:396-402 | a word up to a blank, an operator or the end is one token |
| ArgParser.OperatorsAreTokens | week7/w7.c:360-389 | blanks are dropped and each operator is one token, `>>` before `>` |
| ArgParser.TakeWord | week7/w7.c:395-442 | a word and the operator that ends it, with the terminator written over that character |
| ArgParser.SkipBlanks | week7/w7.c:360-363 | blanks are overwritten and skipped without disturbing finished arguments |
| ArgParser.FindOperatorIndex | week7/w7.c:262-277 | finds the only operator, and reports several iff there are at least two |
| JobTable.Jobs.Add | PA2/shell_src/jobs.c:29-33 | the job goes under the id after the highest, into a slot that was free |
| JobTable.Jobs.Remove | PA2/shell_src/jobs.c:35-45 | frees one slot; the count and the highest id are those of the slots left |
| JobTable.Jobs.SetForeground | PA2/shell_src/jobs.c:10-21 | the job leaves its slot for slot 0; the other slots, the count and the highest id stay right |
| JobTable.Jobs.RemoveForeground | PA2/shell_src/jobs.c:23-27 | clears slot 0 and nothing else |
| JobTable.Jobs.UpdateHighestJobId | PA2/shell_src/jobs.c:60-70 | stops at the highest slot with a background or stopped job |
| JobTable.Jobs.AllLiveHighest | PA2/shell_src/jobs.c:60-70 | every job in a table in order is in the background or stopped, so that is the highest id in use |

## Left out

- Paths, temporary-file names, `unlink`, `lseek`, `ftruncate` and closing: a file is the bytes it holds.
- Failing system calls, `EINTR` and failing allocation: calls succeed, only read and write sizes vary.
- Growth of byte vectors (PA1/util.c:126-176): line buffers are values.
- The two copies of the record scan and of the intersection in PA1/query.c are one method each, with the consumer or the output form as a parameter.
- The bucket writers are opened when the index is built, not in `index_init`.
- `MatchVec`, `U32Vec` and the unused scratch fields of PA1: nothing fills them.
- Argument handling and error messages of PA1/main.c.
- Password hashing (PA3/server/helper.c:37-51): the user table holds the password, and a password passes iff it is that one.
- Receiving and sending messages, the client, signals, and the shutdown of the PA3 server.
- The tables of the PA3 server as shared memory: the transition system holds them as values and changes them in one step per guarded access; the classes of ServerTables show the same operations on arrays.
- The `available` listing as a snapshot: the seats are locked one by one, so only each seat's own state is current.
- Progress of a new connection while every poll set is full: the main thread scans on, and only safety is claimed.
- Spurious wake-ups in week13: a wait ends only by a signal.
- Which of the sleeping threads a signal wakes: there is one producer and one consumer.
- Running what the week7 shell has parsed: redirection, pipes, built-in commands.
- Waiting for processes and signals in PA2, and `get_highest_stopped_job_id`, which expects no empty slots below the highest.
- The remaining weekly exercises and the PA2 parser and file commands: library calls or simple loops.
- JobTable.Jobs.Add: asks that an id is left below `MAX_JOBS`, which the C code does not test.
- IndexBuild.BuildIndex: asks that line numbers, line lengths and the number of distinct words fit 32 bits, which the C code does not test.
