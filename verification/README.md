# Backup manager: model and proofs

The repository is an incremental backup system. A client watches a folder, compares it with what the server
knows, and streams actions (file, folder, deletion, restore, quit) over TCP. The server keeps one row per file
and day and can rebuild the folder as of any date. This project models both programs in Dafny, byte by byte on
the wire and step by step in the threads, and proves that the parts compose:

- **Store.** The table that keeps only the last row of each (file, day) answers every as-of-date query exactly
  as a replay of the full log of actions does, for every log in any day order.
- **Wire.** Whatever one side prints, the other side's mixture of `transfer_exactly`, `>>`, `ignore` and
  `getline` over a persistent buffer reads back, from either residue the previous read may have left.
- **Watcher.** Applying the actions of a diff to the server's view gives the folder's view, exactly under a
  condition that the code does not check: no folder has taken the place of a known file.
- **Threads.** A step system with 21 kinds of step, one per mutex-held section, write or blocking read, and one
  FIFO of bytes per TCP direction. An inductive invariant gives, for every run: convergence of the server's
  view, a restore that gives back the folder, no failing extraction, the life of a pending action and the
  orderly shutdown. Left alone, a session takes boundedly many steps and settles, or comes to where it throws
  or where one of the hypotheses below can no longer be kept, and both are characterised exactly. Without the
  hypothesis on restores the program does not stop either, but reads something else for a date.

## Layout

| file | contents |
|---|---|
| `text.dfy` | byte order on strings, decimal text, `setw`/`setfill`, `>>` on numbers, `std::stoi` |
| `stream.dfy` | a socket read through a stream buffer: net, buffer, eof and fail bits; the field reads |
| `wire.dfy`, `login.dfy`, `chunks.dfy` | messages, their encoders and decoders, the login dialogue, the chunk loops |
| `store.dfy`, `database.dfy`, `dates.dfy` | rows, queries, logs, replay; users and tables; date text |
| `digest.dfy`, `actions.dfy`, `watcher.dfy` | hashes on both sides, action kinds, the two diffs |
| `ring.dfy`, `responses.dfy`, `rebuild.dfy` | bounded buffer, pending actions, writing a restore |
| `handler.dfy`, `client.dfy` | the two session classes |
| `system.dfy`, `forms.dfy` | configuration, state, labels, steps, runs; what each step changes |
| `channels.dfy`, `pending.dfy`, `sync.dfy`, `invariant.dfy`, `consumer.dfy`, `exchange.dfy` | the invariant and its preservation, step by step |
| `session.dfy` | login leaves the state in which a session starts |
| `theorems.dfy`, `progress.dfy`, `outcomes.dfy` | what holds in every run, what a session does when left alone, what becomes of each action |
| `guard.dfy`, `unguarded.dfy` | when the hypothesis on restores can be kept, and what the code does without it |

`dafny verify dfyconfig.toml` checks everything in a few minutes.

## How things are represented

A C++ `char` is a Dafny `char`, so a `string` is a sequence of bytes. Classes of the source whose methods
change fields are classes here, their methods proved against functions of the old state; the step system uses
the same functions (`Answered`, `RequestFor`, `DecHeader`, `Execute`, `Reply`, `DecData`, `Build`, `ToAction`).
A read has three outcomes: it gets a value, it waits because its bytes have not arrived (`Blocked`), or an
extraction fails or reaches the end of the buffer (`Broken`). A number out of the range of the variable it is
extracted into fails, as `>>` does.

Parameters rather than code: the digest function (any function of the absorbed bytes with 32-byte results, so
collisions are not excluded and equality is claimed of hashes only), mtimes and permissions `send_action`
obtains, the order in which a directory is listed, the order of rows, which is the one the `ORDER BY` asks for,
whether SQLite accepts a statement (`engine`), the server's day, and the file system as a map from paths to
nodes.

Hypotheses of the whole-system results, each a guard of a step or a condition of the start in `system.dfy`:

- Between a restore header and its date the action consumer writes nothing (`awaiting`). The header is written
  by one thread (`Client/Client.cpp:466-475`), the date by another once the reply `received` has come
  (`Client/Client.cpp:115-117`, `620-622`), and the server reads the date at once
  (`Server/ClientHandler.cpp:334-337`). No code enforces it: the consumer does not wait, so this is an assumption
  about schedules, and `guard.dfy` and `unguarded.dfy` are about schedules that cannot or do not keep it.
- Paths lie below `main_path`, which has no trailing slash, and are ASCII without newline.
- Between two scans an equal mtime means an equal node and no file turns into a folder (`Honest`); at start-up
  no path the server has as a file is a folder.
- The folder holds still while something a scan has seen is not yet sent.
- The client is an ordinary user, to whom permission bits apply, and the temporary directory of a restore is
  its own.
- Numbers written into padded fields are not negative and fit an int; the server's day does not go backwards; a
  restore has no more entries than an int counts.

Where code and comments differ the model follows the code: the comment at `Client/Client.cpp:454` says that a
file must be smaller than the limit, the test lets a file of exactly the limit pass; the repository's README
names a user's table `_` plus the user name, the code drops all characters that are not alphanumeric
(`Server/Database.cpp:372-380`).

Properties that fail as stated, with their exact conditions:

- A padded number keeps the frame only if it is not negative or has nine digits after its sign
  (`Streams.NumberFieldExact`).
- A header survives exactly if its texts hold no newline (`Wire.HeaderExact`), a login name exactly if it is one
  word (`Logins.NameExact`).
- A restored name survives exactly if every character is one byte (`Store.CutNameExact`,
  `Database.SqliteDatabase.GetRestoreEntries`), because the SQL counts characters and the code bytes: no byte
  from 0xC0 on may be followed by a continuation byte, while a stray continuation byte does no harm.
- A diff converges exactly if no folder stands where the view has a file (`Watcher.DiffConverges`,
  `Watcher.StartUpConverges`; `Watcher.FolderForFileIsMissed` is the counterexample).
- A rebuild succeeds exactly if every entry's folder is an entry and has its owner's write and search bits
  (`Rebuild.BuildExact`, `Rebuild.BuildSucceeds`): permissions are set entry by entry, before the next one is created
  (`Client/Client.cpp:688-693`), so a folder that was read-only cannot be filled again.
- The server reads a restore's date exactly if nothing was written between the restore's header and its date
  (`Unguarded.DateExact`). Otherwise its stream breaks, and what it takes for the date are leading digits of the
  next request's index, as of which nothing is restored (`Unguarded.EmptyRestore`). A restore followed by quit is
  enough (`Unguarded.QuitBreaksDate`).
- Where no further restore waits to be written, that hypothesis can be kept to the end exactly if the state is not
  doomed (`Guards.KeepingExact`).
  A scan holds the watcher's mutex while it pushes (`Client/FileWatcher.cpp:30-63`), and `pause()` needs it before
  the date is written (`Client/Client.cpp:617-622`); so once a restore waits for its date and a scan is under way,
  and the actions in hand, in the ring and still to be pushed, counted from the first that has to be written, are
  more than the ring's capacity, the scan cannot end before the consumer writes (`Unguarded.DoomedWrites`). When a
  restore header is written this can be read off the ring and the events left (`Guards.HeaderDecides`).

## Model

| member | source | states |
|---|---|---|
| `Text.SortedKeys` | Server/ClientHandler.cpp:345 | Iterating over a `std::map` visits every key once, in byte-lexicographic order. |
| `Text.FormatShape` | Client/Client.h:27 | A number below 10^10 fills a padded field with exactly ten digits whose value is the number. |
| `Text.StoiToString` | Server/Database.cpp:302-303 | `std::stoi` gives back what `std::to_string` printed exactly for values in the range of int, and throws otherwise. |
| `Streams.NumberField` | Server/ClientHandler.cpp:173-176 | From an empty buffer or a lone newline, a padded number reads back and leaves exactly its newline behind. |
| `Streams.TextField` | Server/ClientHandler.cpp:179-181 | After a length, `ignore` and `getline` give back any text without newline and leave the buffer empty. |
| `Streams.WordField` | Server/ClientHandler.cpp:336-337 | After a length, `>>` gives back any word and leaves exactly its newline behind. |
| `Streams.BytesField` | Server/ClientHandler.cpp:271-273 | Arbitrary bytes read back from an empty buffer. |
| `Streams.ReadBytesSplit` | Server/ClientHandler.cpp:269-278 | Reading a chunk and then the rest is reading all at once, also in what it waits for. |
| `Streams.NumberFieldExact` | Client/Client.h:27 | A padded int reads back at a field boundary if and only if it is not negative or has nine digits after the sign. |
| `Streams.TextFieldExact` | Server/ClientHandler.cpp:179-181 | A text reads back, with the buffer empty, if and only if it holds no newline. |
| `Wire.HeaderExact` | Server/ClientHandler.cpp:173-191 | The header the client prints reads back as sent, the buffer empty and the stream good, if and only if none of its texts holds a newline. |
| `Wire.HeaderBytes` | Client/Client.cpp:466-475 | A header on the wire, field by field. |
| `Wire.KindLine` | Client/Client.cpp:466 | The first line of a header by the kind of action. |
| `Wire.BodyRoundTrip` | Server/ClientHandler.cpp:260-278 | A file of arbitrary bytes reads back in front of an empty buffer. |
| `Wire.DateRoundTrip` | Client/Client.cpp:620-622 | A restore date reads back and leaves one newline. |
| `Wire.RequestRoundTrip` | Client/Client.cpp:466-482 | A request with its file or date reads back and leaves the residue of its kind. |
| `Wire.SessionRoundTrip` | Server/ClientHandler.cpp:160-229 | Every sequence of requests is decoded as exactly that sequence, no extraction fails or reaches the end of the buffer, and the session ends at a field boundary. |
| `Wire.ResponseRoundTrip` | Client/Client.cpp:93-96 | A response reads back and leaves one newline. |
| `Wire.ResponseBytes` | Server/ClientHandler.cpp:236-244 | A response on the wire by its status. |
| `Wire.FileRoundTrip` | Client/Client.cpp:635-676 | One restore entry, folder or file of any bytes, reads back with name, metadata, kind and content. |
| `Wire.FileBytes` | Server/ClientHandler.cpp:345-361 | One restore entry on the wire, field by field. |
| `Wire.DataRoundTrip` | Client/Client.cpp:624-676 | A restore stream of any mix of entries reads back and stops at a boundary in front of the following response. |
| `Wire.InitRoundTrip` | Client/Client.cpp:354-380 | The initial status reads back pair by pair up to its closing zero. |
| `Wire.InitBytes` | Server/ClientHandler.cpp:134-153 | The initial status on the wire: name and hash of each pair, each after its length, and a zero. |
| `Logins.NameExact` | Server/ClientHandler.cpp:75-78 | A login name reads back at a boundary if and only if it is one non-empty word; otherwise something else or nothing is read. |
| `Logins.PasswordExact` | Server/ClientHandler.cpp:101-104 | A password reads back in front of an empty buffer if and only if it holds no newline. |
| `Logins.CheckExact` | Server/ClientHandler.cpp:100-111 | For any bytes: the password loop ends after n refusals if and only if the bytes hold n other passwords and then the stored one. |
| `Logins.CheckCounts` | Server/ClientHandler.cpp:100-111 | Whenever the loop ends it has answered no some number of times and then yes once. |
| `Logins.LoginRoundTrip` | Server/ClientHandler.cpp:67-114 | A known user with the stored password, or a new one whose table name is free, gets in after any number of wrong tries; a new user is stored with the first password and an empty table, and turned away exactly if the table name is taken; the first request starts with an empty buffer. |
| `Logins.LoginAgain` | Server/ClientHandler.cpp:67-114 | Two sessions: whoever was registered with a password gets in with it, after any wrong tries, on the database left by that login and any later operations of any users. |
| `Logins.FlagsRoundTrip` | Client/Client.cpp:273-286 | The client reads off exactly the refusals and the acceptance, and the initial status starts at one newline. |
| `Chunks.ReceiveChunks` | Server/ClientHandler.cpp:265-281 | For every size the receive loop ends and takes exactly what one read of the whole would take. |
| `Chunks.SendChunks` | Client/Client.cpp:508-530 | For every file length the chunks written, put end to end, are the file. |
| `Store.StableSortCorrect` | Server/Database.cpp:135-148 | The reference order of a log: by day, a permutation, each day's calls in their order. |
| `Store.SortedIsFixed` | Server/ClientHandler.cpp:201-202 | With a clock that does not go backwards the reference order is the log itself. |
| `Store.SortTable` | Server/Database.cpp:135-148 | Sorting a log by day does not change the table its upserts leave. |
| `Store.LaterIsInvisible` | Server/Database.cpp:269-273 | An upsert dated after D does not change the view as of D. |
| `Store.NewestIsPlayed` | Server/Database.cpp:135-148 | An upsert on its file's newest day acts on the view like one step of the replay. |
| `Store.SortedLogRefines` | Server/Database.cpp:263-316 | For a log in day order the as-of-D query on the table is plain replay of the log up to D. |
| `Store.AsOfRefinesReplay` | Server/Database.cpp:263-316 | For every log in any day order and every date, the query on the compacted table is the replay of the full log, stably sorted by day and cut at the date. |
| `Store.HistoryIsPermanent` | README.md:5 | Any calls dated after D, however many and in any order, leave the view as of D unchanged. |
| `Store.CurrentIsAsOf` | Server/Database.cpp:220-250 | The initial status is the name and hash projection of the restore query at any date not before the newest row. |
| `Store.CurrentPlayed` | Server/Database.cpp:220-250 | An upsert not older than any row sets or removes exactly its own name in the initial status. |
| `Store.CutNameExact` | Server/Database.cpp:296-297 | Taking as many bytes as SQLite's `length()` counts characters keeps the name if and only if no byte from 0xC0 on is followed by a continuation byte, and shortens it otherwise. |
| `Store.CharactersExact` | Server/Database.cpp:265-297 | SQLite's `length()` counts each byte except those between which and a byte from 0xC0 on only continuation bytes stand. |
| `Store.ReachableRowConverts` | Server/Database.cpp:291-310 | A live row made from client messages converts without exception; `hash != "dir"` tells files from folders; name, content and metadata are kept. |
| `Store.RestoreListDepicts` | Server/Database.cpp:289-315 | On a reachable table the restore list is produced and shows exactly the view as of the date, once per name, in name order. |
| `Store.KeyOrderKeeps` | Server/ClientHandler.cpp:345 | A list of files in name order goes through the restore map unchanged. |
| `Store.FirstWinsKeys` | Server/Database.cpp:310 | The restore map holds the first file of each name and nothing else. |
| `Store.LogTableOk` | Server/Database.cpp:135-207 | A log of well-formed calls leaves a table of well-formed rows. |
| `Database.UsersAreSeparate` | Server/Database.cpp:63-120 | In every reachable database distinct users have distinct tables, even with case folded. |
| `Database.StoredPassword` | Server/Database.cpp:63-120 | In every reachable database a user is known under a password if and only if the first registration to ask for the user's table name was that user's with that password. |
| `Database.AccountStays` | Server/Database.cpp:29-54 | A user whose registration succeeded stays known under its password, whatever is registered and stored later. |
| `Database.TableNameShape` | Server/Database.cpp:372-380 | A table name is an underscore followed by letters and digits only, and its own table name. |
| `Database.TableNamesMeet` | Server/Database.cpp:372-380 | Two users share a table name if and only if their letters and digits agree, in order, up to case. |
| `Database.KeptCharacters` | Server/Database.cpp:372-380 | Of a name exactly its letters and digits are kept, in order. |
| `Database.OwnTable` | Server/Database.cpp:372-380 | A user's table is the one left by that user's own actions, whatever others did in between. |
| `Database.OwnView` | Server/Database.cpp:263-316 | What a user gets back as of any date is the replay of that user's own actions. |
| `Database.CollectedExact` | Server/Database.cpp:289-315 | What the row loop collects is the view as of the date if and only if all selected names are one byte per character. |
| `Database.SqliteDatabase.PasswordFromUsername` | Server/Database.cpp:29-54 | The stored password, or nothing for an unknown user. |
| `Database.SqliteDatabase.CreateNewUser` | Server/Database.cpp:63-120 | Stores the user with this password and an empty table, and changes nothing exactly if the table name is taken. |
| `Database.SqliteDatabase.CheckKeyExist` | Server/Database.cpp:325-369 | Whether the table has a row for the file and day. |
| `Database.SqliteDatabase.AddAction` | Server/Database.cpp:135-207 | Exactly one table changes, by an upsert that adds a row only for a new file and day; a failing statement changes nothing. |
| `Database.SqliteDatabase.GetRestoreEntries` | Server/Database.cpp:263-316 | Throws exactly if some selected metadata text is no int; otherwise keeps, of the rows whose names become equal when cut, the first, which is the view as of the date if and only if all names are one byte per character. |
| `Database.SqliteDatabase.GetInitializationEntries` | Server/Database.cpp:220-250 | The row loop returns name and hash of every file's newest row that is not a deletion. |
| `Dates.IsoOrder` | Server/ClientHandler.cpp:201-202 | Text order of two valid dates is the order of year, month and day. |
| `Dates.TextOrderIsCalendarOrder` | Server/Database.cpp:269-273 | For valid four-digit-year dates (section 5.6 of RFC 3339) one text is not after the other if and only if the second day is reached from the first by letting days pass. |
| `Dates.DaysApart` | Server/ClientHandler.cpp:201-202 | One day is reached from another by letting k days pass if and only if their numbers in the Gregorian calendar differ by k. |
| `Dates.IsoShape` | Server/ClientHandler.cpp:201-202 | Year, month and day stand in the text as four, two and two digits with dashes between them. |
| `Digests.HexAt` | Client/Hash.cpp:67-72 | The printed text shows every byte in its place, high digit first. |
| `Digests.HexInjective` | Client/Hash.cpp:67-72 | Two digests print alike if and only if they are equal. |
| `Digests.FileHashText` | Server/Hash.cpp:52-57 | A printed digest is one non-empty word and never "dir". |
| `Digests.Hash.FromFile` | Client/Hash.cpp:5-45 | For every file length the eof-driven loop absorbs exactly the file. |
| `Digests.Hash.FromBlob` | Server/Hash.cpp:4-30 | The digest of the blob in one piece. |
| `Digests.Hash.GetHash` | Client/Hash.cpp:67-72 | The loop prints all bytes of the digest in order, two digits each. |
| `Digests.CompareSides` | Server/Hash.cpp:52-57 | The texts of the client's chunked and the server's whole digest are equal if and only if the digests of the two contents are. |
| `Actions.Classify` | Client/Action.h:19-35 | Ignored if and only if a modified directory, a folder action if and only if a created directory, a deletion if and only if erased, otherwise a file. |
| `Watcher.DiffConverges` | Client/FileWatcher.cpp:33-62 | The classified actions of a diff turn the old view into the folder's view if and only if what counts as unchanged is unchanged and every modified folder was a folder. |
| `Watcher.StartUpConverges` | Client/FileWatcher.cpp:90-121 | From any server map the start-up actions lead to the folder's view if and only if no path known as a file is now a folder. |
| `Watcher.ScanConverges` | Client/FileWatcher.cpp:33-62 | A scan's actions turn the view of the tree last seen into the view of the present one. |
| `Watcher.NothingToReport` | Client/FileWatcher.cpp:33-62 | A folder that is as the server has it raises nothing at start-up, and one with the recorded paths and mtimes nothing in a scan. |
| `Watcher.FolderForFileIsMissed` | Client/Action.h:28-30 | A folder in a file's place is raised as modified and ignored, and the views differ. |
| `Watcher.FileWatcher.InitStatus` | Client/FileWatcher.cpp:90-121 | Both loops end; `paths_` is the tree's mtimes; the events are exactly the differences by hash, at most one per path. |
| `Watcher.FileWatcher.CompareListed` | Client/FileWatcher.cpp:93-113 | The listing loop reports exactly the created and changed paths and leaves in its copy of the server's map exactly the paths that are gone. |
| `Watcher.FileWatcher.CompareEntry` | Client/FileWatcher.cpp:95-111 | What start-up does about one listed entry: recorded, taken out of the copy, and reported exactly if new or of another hash. |
| `Watcher.FileWatcher.ScanEntry` | Client/FileWatcher.cpp:48-60 | What a scan does about one listed entry: recorded, and reported exactly if new or of another mtime. |
| `Watcher.FileWatcher.Scan` | Client/FileWatcher.cpp:33-62 | One scan leaves `paths_` equal to the tree's mtimes and raises exactly the differences, at most one per path and none for an unchanged one. |
| `Watcher.FileWatcher.EraseVanished` | Client/FileWatcher.cpp:33-43 | The erase-while-iterating loop ends and removes and reports exactly the vanished paths. |
| `Rings.WindowLength` | Client/Buffer.h:26 | The array never holds more than its size less one; it is empty or full exactly when the two wait conditions say so. |
| `Rings.WindowPush` | Client/Buffer.h:28-29 | Storing at `curr` and advancing it, also around the end, appends to the queue. |
| `Rings.WindowPop` | Client/Buffer.h:39-40 | The item at `head` is the oldest, and advancing `head` leaves the rest in order. |
| `Rings.Buffer.constructor` | Client/Buffer.h:15-21 | A fresh buffer is empty and not terminated. |
| `Rings.Buffer.Push` | Client/Buffer.h:24-31 | Appends to the queue, keeping items popped followed by contents equal to items pushed, at most size less one at a time. |
| `Rings.Buffer.Pop` | Client/Buffer.h:33-43 | Takes the oldest item; nothing comes back if and only if the buffer is terminated and empty. |
| `Rings.Buffer.Terminate` | Client/Buffer.h:45-49 | Marks the end and keeps the contents. |
| `Responses.ResponseBuffer.Add` | Client/ResponseBuffer.cpp:15-23 | Gives the next index and an entry marked sent. |
| `Responses.ResponseBuffer.Receive` | Client/ResponseBuffer.cpp:29-33 | The entry is marked received, with its action, and every other stays as it is; a missing index would leave a default entry. |
| `Responses.ResponseBuffer.SignalError` | Client/ResponseBuffer.cpp:41-50 | The entry is marked as error and its action returned, and every other stays as it is. |
| `Responses.ResponseBuffer.Completed` | Client/ResponseBuffer.cpp:57-61 | Exactly this entry goes, and every other stays as it is. |
| `Responses.ResponseBuffer.GetAll` | Client/ResponseBuffer.cpp:86-95 | Every pending action once, by increasing index. |
| `Rebuild.BuildExact` | Client/Client.cpp:633-694 | In name order every folder is there, with its permissions set, before what it holds: the rebuild succeeds, and gives exactly the listed tree, if and only if every entry's folder is listed and open to its owner. |
| `Rebuild.BuildSucceeds` | Client/Client.cpp:633-694 | A list in name order is rebuilt, exactly as listed, if and only if each entry q/c stands at the top or q is listed as a folder with the bits 0200 and 0100. |
| `Rebuild.BuildAny` | Client/Client.cpp:633-694 | A list in any order, with names repeated, is rebuilt if and only if each entry finds its folder as the entries before it left it and is of the kind of the earlier entries of its name; the last one stands. |
| `Client.CleanPath` | Client/Client.cpp:424-426 | A path loses the first occurrence of `main_path`, which below the watched folder is its prefix; it throws if and only if there is none. |
| `Client.AllowedSizes` | Client/Client.h:25 | A change of a present file below `main_path` is sent if and only if it has at most 512 MB and one byte. |
| `Client.ChangeArrives` | Client/Client.cpp:415-482 | The server reads a change's request as its kind, index, path below the watched folder, mtime and permissions (blanks for a deletion) and, for a file, its bytes. |
| `Client.RestorationArrives` | Client/Client.cpp:466-475 | The server reads a restore's request as its index and its date. |
| `Client.InitMapFirst` | Client/Client.cpp:373 | Each listed name is in the client's map with the hash of its first pair, and nothing else is. |
| `Client.InitArrives` | Client/Client.cpp:354-380 | The client's map is the server's current view, each name below `main_path`, and the stream stands at the first response. |
| `Client.Client.SendFile` | Client/Client.cpp:490-535 | Writes the size and then all bytes. |
| `Client.Client.SendAction` | Client/Client.cpp:400-483 | Adds exactly one entry; writes, byte for byte, the request the action stands for, a restore's up to its date, or nothing if it is ignored (entry gone), too big (entry an error), or the path or file makes it throw. |
| `StepForms.ChangeSteps` | Client/Client.cpp:466-482 | The header step and, for a file, the body step of the step system put the bytes of the same request on the wire that `SendAction` writes. |
| `StepForms.RestorationSteps` | Client/Client.cpp:620-622 | The header step of a restore and the date its received calls for are, together, the bytes of its request. |
| `Client.Client.GetInit` | Client/Client.cpp:354-380 | The loop reads exactly what the decoder of the initial status reads and keeps the first of equal paths. |
| `Client.Client.ActionRestore` | Client/Client.cpp:613-710 | Pauses the watcher, sends the date, and creates entry by entry exactly the tree of the restore stream, stopping where that stream ends; the watcher goes on after every ending, also an exception, and stays paused only while bytes are missing. |
| `Client.Client.ReceiveTree` | Client/Client.cpp:624-694 | The loop over the entries succeeds exactly if the stream can be read and built, and waits only if it has not all arrived. |
| `Client.Client.ReadResponse` | Client/Client.cpp:91-134 | One round of the response consumer: a restore's received sends the date, rebuilds, and only then marks the entry; any other status changes at most the entry it names, and finish none. |
| `Handler.ClientRowOk` | Server/ClientHandler.cpp:280-320 | Whatever the client sends as a change is stored as a well-formed row, a folder if and only if its hash is "dir". |
| `Handler.ResponsesDisciplined` | Server/ClientHandler.cpp:193-228 | The responses are, in action order, received and then exactly one of completed and error: for a change completed if and only if its statement was accepted, for an unknown kind error; the restore data only before a completed restore, and one finish at the end. |
| `Handler.RestoresComplete` | Server/ClientHandler.cpp:329-365 | Among any requests of a client, with any statements failing, each restore is completed, and what is sent for it is the view, as of its date, of what was accepted before it. |
| `Handler.ServeRun` | Server/ClientHandler.cpp:160-229 | For every sequence of requests and a quit, with any statements failing, the server carries out exactly the accepted changes in order, writes exactly those responses, and stands at a frame boundary, also after a failure. |
| `Handler.ClientHandler.ReadPassword` | Server/ClientHandler.cpp:101-104 | Reads one password of the dialogue, or waits. |
| `Handler.ClientHandler.Authenticate` | Server/ClientHandler.cpp:100-111 | The loop reads and answers what the password check reads and answers. |
| `Handler.ClientHandler.Login` | Server/ClientHandler.cpp:67-114 | The dialogue ends as its specification says: user name, registered users, answers written, bytes consumed. |
| `Handler.ClientHandler.SendFileHash` | Server/ClientHandler.cpp:134-153 | Writes the current view in key order and the closing zero. |
| `Handler.ClientHandler.SendResponse` | Server/ClientHandler.cpp:236-244 | Writes index and status as two padded lines. |
| `Handler.ClientHandler.ReadHeader` | Server/ClientHandler.cpp:173-191 | Consumes exactly a header. |
| `Handler.ClientHandler.ReadTail` | Server/ClientHandler.cpp:260-278 | Consumes exactly the file or the date that follows the header. |
| `Handler.ClientHandler.ActionRestore` | Server/ClientHandler.cpp:329-365 | For any table: sends exactly the restore list and then completed, or, where the query throws, has written nothing. |
| `Handler.ClientHandler.SendEntries` | Server/ClientHandler.cpp:345-361 | Writes every entry of the map once, in key order, each with its content. |
| `Handler.ClientHandler.ReadAction` | Server/ClientHandler.cpp:160-229 | For any table, one request from header to answer: what is consumed, stored and written in each case, with the file consumed before a failing statement is answered, and a throwing restore answered by an error. |
| `Sync.FileJourney` | Client/Client.cpp:400-483 | What is stored of a change, field by field, under its name and the day it came; of a file or folder a restore reads it with the same name, metadata, kind and content. |
| `Sync.AcceptedChange` | Server/Database.cpp:135-148 | An accepted change alters the server's view as its request promised. |
| `Sync.RequestPromises` | Client/Client.cpp:415-482 | The request sent for an action promises the effect of the action on the tree it was seen in. |
| `Sessions.LoginOpensSession` | Server/ClientHandler.cpp:28-34 | The login dialogue of a known or new user, any number of wrong tries, and the initial status leave exactly the two streams and the table with which the whole-system model starts a session. |
| `Theorems.StepInv` | Client/Client.cpp:51-140 | Every step of either program keeps the invariant of the system. |
| `Theorems.RunInv` | Client/Client.cpp:51-140 | The invariant holds in every run from a fresh session. |
| `Theorems.EndToEnd` | README.md:5 | In every run, whenever no scan is under way, the ring is empty, the consumer holds nothing and nothing is pending, the server's view is the folder last scanned: the same paths, "dir" for folders, the content hash for files. |
| `Theorems.NothingBreaks` | Server/ClientHandler.cpp:173-191 | In every run no extraction of either program fails or meets the end of its buffer; between messages each buffer is empty or one newline. |
| `Theorems.PendingKeys` | Client/ResponseBuffer.cpp:15-61 | In every run the entries that are not errors are exactly the actions under way, and indices are fresh. |
| `Theorems.PendingMoves` | Client/Client.cpp:91-134 | In every run each response names an entry that is there, and each step moves an entry only from sent to received, to error, or away after received (an ignored action directly); `Outcomes.PendingCauses` says which when. |
| `Outcomes.PendingCauses` | Client/Client.cpp:91-134 | In every run an entry becomes an error exactly on an error response to it or on its file being too big, and goes away exactly on a completed response or as an ignored action. |
| `Outcomes.AnswersTell` | Server/ClientHandler.cpp:193-228 | In every run an answered change was answered completed if and only if its entry was made, and the entry stands in the history with the request's name and row. |
| `Outcomes.AnswerAndEntry` | Server/ClientHandler.cpp:193-228 | The step that answers a change answers completed and makes one entry, under the day of its header, or answers error and leaves history and table alone. |
| `Outcomes.CleanSettles` | README.md:5 | A run in which no file was too big and no statement failed, once settled, has nothing pending, and the server's view is the folder last scanned. |
| `Theorems.PushOrder` | Client/Client.cpp:54-59 | In every run the actions pushed are those handled, the one in hand and the ring, in that order, within the ring's capacity. |
| `Theorems.ShutdownDrains` | Client/Client.cpp:204-229 | Once quit is written every pushed action has been handled once, in push order; once the response consumer ends, both directions are empty and only errors are pending. |
| `Theorems.RestoreIsReplay` | Client/Client.cpp:613-694 | In every run a finished restore has received and built exactly the replay of the server's history up to the date asked for, with every entry's folder in place. |
| `Theorems.ScanExcludesRestore` | Client/FileWatcher.cpp:70-73 | A check of the mutex in the step model: in every run a scan and a restore's fetch exclude each other. |
| `Theorems.RestoreGivesTheFolder` | README.md:5 | In every run, when nothing is under way or pending, a restore served after the last accepted change, as of a date not before the newest row, has built exactly the folder last scanned: the same paths, kinds and contents, provided no stored file collides with a file of the folder. |
| `Theorems.TableIsLog` | Server/Database.cpp:135-207 | In every run the table is the one left by the history of accepted actions, every as-of-date view is the replay of that history, and a next session may start from it. |
| `Progress.StepOrRest` | Client/Client.cpp:51-140 | A state of the invariant has settled, throws, is one where a hypothesis (on the start, or on restores) cannot be kept, or has a step within the hypotheses that needs neither user nor clock nor folder. |
| `Progress.RestExact` | Client/Client.cpp:51-140 | Where it neither throws nor is barred, it has no such step if and only if it has settled or is cornered, and not both; cornered means that only a write between a restore header and its date goes on. |
| `Progress.WorkShrinks` | Client/Client.cpp:51-140 | Each such step uses up a bounded amount of work. |
| `Progress.InternalRunsEnd` | Client/Client.cpp:51-140 | Left alone, the system takes at most as many steps as it has work, and the invariant is kept. |
| `Progress.Settles` | Client/Client.cpp:51-140 | From every state of the invariant there is a run of such steps to a settled or throwing state, or to one where a hypothesis cannot be kept. |
| `Progress.LeftAlone` | README.md:5 | Under any schedule within the hypotheses, a session left alone until no such step is left has taken boundedly many, and has settled, thrown, or come to where a hypothesis cannot be kept; settled, only errors are pending, and with none the server's view is the folder last scanned. |
| `Progress.QuitFinishes` | Client/Client.cpp:204-229 | After the user has asked to quit, every such run that cannot go on has brought the response consumer to its end, or has thrown or come to where a hypothesis cannot be kept. |
| `Guards.HeaderDecides` | Client/Client.cpp:466-475 | When a restore header is written and no other restore waits, every run of own steps that keeps the hypothesis, cannot go on and does not throw has settled if and only if no scan is under way or what the ring and the events left hold, from the first action to write on, is at most the ring's capacity. |
| `Guards.DoomRuns` | Client/FileWatcher.cpp:30-63 | No run of own steps within the hypothesis undoes a doomed state, and none brings one about without writing another restore header. |
| `Guards.KeepingExact` | Client/Client.cpp:617-622 | Left alone without further restores to write, and not throwing, a session within the hypothesis settles if and only if it was not doomed, and otherwise ends where only a write before the date goes on. |
| `Guards.CornerReachable` | Client/FileWatcher.cpp:70-73 | For every watched folder, digest and capacity of the ring a run from a fresh session leads to where the hypothesis on restores cannot be kept. |
| `Unguarded.HeaderForDate` | Server/ClientHandler.cpp:331-337 | A header where a date is expected breaks the server's stream; its kind is taken for the length and the first digits of its index for the date. |
| `Unguarded.DateExact` | Server/ClientHandler.cpp:331-337 | With any requests written between a restore's header and its date, the server reads the date if and only if there are none. |
| `Unguarded.EmptyRestore` | Server/Database.cpp:263-316 | As of what it then takes for the date, a table of calendar days has no rows. |
| `Unguarded.WriteBreaksDate` | Client/Client.cpp:466-475 | Whatever the consumer writes, header or quit, once the server waits for a date, breaks the server's read of it. |
| `Unguarded.QuitBreaksDate` | Client/Client.cpp:67-77 | From a fresh session, for every capacity, a restore followed by quit has a run of the code that ends in a broken read of the date. |
| `Unguarded.CorneredWrites` | Client/Client.cpp:466-475 | Where the hypothesis cannot be kept the consumer can write its header, and nothing else can happen. |
| `Unguarded.DoomedWrites` | Client/FileWatcher.cpp:30-63 | From a doomed state, every run of the code's own steps in which the consumer has not written has not sent the date, is bounded, and can go on, at last only by a write that breaks the date. |
| `Unguarded.NoDeadlock` | Client/Client.cpp:51-140 | The program is never stuck: a state of the invariant has settled, throws, is barred by the hypothesis on the start, or has a step of the code. |

## Left out

- Sockets, acceptor, reconnecting and retry counter: each direction of the connection is a FIFO of bytes.
- Console dialogues, stdin polling, debug output and `printHash`.
- Exceptions: a run ends where a thread would throw; how the threads then unwind, and a producer blocked on a full ring after its consumer has died, are not modelled. An extraction that fails ends the reader (`Broken`) and leaves no stale value.
- SQLite itself: statements are given by their meaning, a row order by `ORDER BY`, a failing `addAction` changes nothing. Text with a NUL byte, which `column_text` would cut, is not treated.
- SHA-256 internals and collisions: the digest is a parameter, and views are compared by hash.
- How mtime and permissions are obtained: `send_action` reads them from `main_path`, not from the file; only their transport is claimed. Directory mtimes and permissions after a rebuild are not.
- What the client makes of an error reply to a restore: it would read it as the number of entries. Tables made from client messages never lead to one.
- Symbolic links, races of the file system with a scan, and the replacement of the target directory after the rebuild (`remove_all`, `rename`).
- `Client.Client.ReadResponse`: `get_action` returns the stored action; the source rebuilds a change and looks at the file system again, but only tests whether it is a restore.
- `Rebuild.BuildExact`: names are slash-separated with no empty, `.` or `..` component, as directory iterators produce them.
- `Streams.NumberFieldExact`: is about fields read into an int; a size read into an unsigned variable accepts a minus sign in C++, the model counts it as a failure, and no writer produces one.
- `Theorems.EndToEnd`: speaks of hashes, under the hypotheses listed above; runs that break one of them are excluded, not analysed.
- `Progress.LeftAlone`: counts the threads' own steps, among which the next periodic scan is not; fairness of the operating system's scheduler and real time are not modelled. A restore whose view lacks an open folder, a restore of more entries than an int counts and an exhausted action counter are the states that throw. TCP buffers are unbounded, so a sender never waits for its receiver.
- `Client.Client.ActionRestore`: file-system errors other than a missing or closed folder are not modelled; nor is what follows the rebuild.
