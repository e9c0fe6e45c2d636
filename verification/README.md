# A model of FTPservU in Dafny

FTPservU is an FTP server for the Wii U. This project models its logic and proves what that logic is for:

- **The ELF to RPL converter** of the build (`Elf*.dfy`). Symbols, import stubs and relocations are read; sections,
  import slots and section symbols are added; symbols are pruned in place; every relocation is re-indexed; string
  tables, section indices and file offsets follow. The main result, `ElfConverter.ConvertObject`, says how the
  conversion of any input ends, and of the finished object that each relocation the input asks for is there once, in
  order, in the section it belongs to, with its type, and comes to the address it came to in the input, or to the slot
  of its import. How it ends and what becomes of relocations and symbols are also told by the numbers of the input
  alone (`ElfEnds`, `ElfCarried`). The program's `Symbol` pointers are positions in an arena, so that one symbol can
  be in several lists and change in place; `ElfFile.freed` holds those that have been destroyed.
- **Paths as linked lists** (`Path*.dfy`). Parsing, resolving with a pointer-reversing stack, cloning, merging and
  printing are proved against functions on component lists, and those against each other.
- **The control connection** (`IoBuffers`, `Framing`, `ControlChannel`, `Serving`, `Replies`, `Turns`, `Departures`,
  `ServedStreams`), the **commands and sessions** (`Commands`, `Sessions`, `Directories`, `CommandWords`, `Clients`).
  What every command does is told by its word, without the table and the handlers. A client's log of executed commands
  is proved to be a function of the bytes it has received, however they were cut into chunks, and its login state and
  working directory to be a function of that log. A run of turns goes on until a turn leaves a QUIT standing, and
  which requests are served by then is the one thing that the chunks decide.
- **Data channels** (`Dtp`, `DtpPoll`, `DataEvents`, `DtpRuns`): a store-and-forward copy, polled over two intrusive
  lists. Enough polls bring every transfer to its end, with the whole source delivered unless a read or a write fails.
- **The server as a whole** (`Seats`, `ServerSteps`, `ServerRuns`): runs in which clients connect, take turns, get
  channels and files to send, and leave, in between polls of all channels, in any order. Every step does what it should,
  every transfer conserves its bytes, a client's channel is in the lists and has not been given back, and clients share
  nothing.
- **The scatter loader** (`Scatter`), **bounce-buffer file I/O** (`SdFat`) and the **six-number address codec**
  (`PortCodec`).

What the world answers is left open: received chunks, `stat` answers and accepted connections are parameters; reads,
writes, sends and device calls return arbitrary results within their contracts. `malloc` never fails. Characters stand
for bytes, in the "C" locale. `PATH_MAX` is a parameter.

Where the code departs from what one would expect, the model follows the code and says exactly when:

- Pruning destroys symbols (`src/wut/elf2rpl/main.cpp:739`) that relocations still point to, and conversion goes on to
  read their addresses (`src/wut/elf2rpl/main.cpp:776-784`). A loader relocation that names a symbol leaves its pointer
  null, with the same end (`src/wut/elf2rpl/main.cpp:487-532`). There the model stops with `BadPointer`.
  `ElfConverter.ConvertObject` proves that this happens exactly when some relocation leads to a label, that is, to an
  address whose first symbol has a name but neither type nor size, and where no symbol has a type; or when a loader
  relocation in range names a symbol. `ElfCases.LabelGoesAstray` gives such inputs, and
  `ElfConvert.FallbackKeepsMeaning` says when what the code writes next would be right.
- Reading uses a null pointer for a stub word that is missing or leads to no symbol
  (`src/wut/elf2rpl/main.cpp:377-387`), and where an addend that denotes nothing is to be patched into an address that
  no section has data for (`src/wut/elf2rpl/main.cpp:450-453`). `ElfInput.ReadFile` says exactly when.
- A symbol or section at address 0xFFFFFFFF is in no section, so that a conversion fails behind its relocations
  (`src/wut/elf2rpl/main.cpp:884-887`). `ElfConverter.ConvertObject` proves that nothing else fails there;
  `ElfCases.FarSymbolFails` gives such inputs.
- A client is released at the end of a turn that leaves a QUIT standing (`src/ftp.c:185-186`), so that what is served
  of a stream behind a QUIT depends on how it was cut. `Departures.WholeUnderEveryChunking` proves that a list of
  requests is served whole under every chunking exactly when none but the last is a QUIT. `Departures.QuitThenNoop`
  and `Departures.ReinInTime` give lists for which it is not; the second is served whole in one piece.
- Setting a channel's state keeps only its buffer flag (`src/dtp/dtp.h:22`), so that a direction which a channel is
  given before its connection is accepted is forgotten then (`src/dtp/passive.c:31-32`). `DtpPoll.Poll` says so, and
  `DtpRuns.PollRounds` that no number of polls starts such a transfer.
- How much of a reply the socket took is not looked at (`src/ftp.c:169-170`), and the rest of it is lost.
  `Replies.RespondAndSend` proves that the socket has a front of each line, and that nothing is lost exactly when every
  line was taken whole.
- PASV frees the channel that the client still has, which is in the lists that are polled
  (`src/commands/pasv.c:10-13`), and describes a channel even if it got none (`src/commands/pasv.c:15-27`).
  `ServerRuns.Opening` says when, `ServerRuns.Perform` that the channel is in the lists, and a run ends there.
- A path that ends in separators behind a component makes the parser step past the terminator
  (`src/vfs/vfs_pathent.c:51-72`). `PathText.Parse` proves that this happens exactly for such text without a rejected
  character; the result is then `PastTerminator`, and a run ends there.
- The first character of each later component is not validated; `PathText.Rejected` says which characters are.
- A path is resolved before it is merged, so that leading ".." components are lost. `PathNames.EarlyResolveIsLexical`
  and `Directories.ChdirIsLexical` say exactly when the outcome is lexical resolution all the same;
  `Directories.ChdirParentStays` shows that `CWD ..` never moves.
- `vfs_path_resolve` never frees the ".." nodes themselves (`src/vfs/vfs_path.c:106-112`); `PathList.VfsPath.Resolve`
  says which nodes are given back.
- Being logged in is tested by comparing state words, which the disconnect bit also satisfies (`src/ftp.h:20`).
  `Sessions.LoginOverHistories` states what this amounts to over every history, `Sessions.LoginBeforeQuit` that it is
  right until the first QUIT.
- A full line buffer cannot take a whole line of its own size and a NUL (`src/iobuffer.c:131-132`);
  `IoBuffers.IoBuffer.Next` says when. Before a newline at the start of the buffer the code looks at the byte in front
  of the buffer; the model takes it not to be a carriage return.
- A sixth comma in a PORT argument stores past the end of the array (`src/commands/port.c:33`);
  `PortCodec.ParsePortArgs` says when.
- A failing read and a stalled write report 0 although bytes have moved (`src/fs/sd_fat_devoptab.c:310-315`,
  `src/fs/sd_fat_devoptab.c:362-366`); `SdFat.SdFile.Read` and `SdFat.SdFile.Write` state both numbers.

Three proof devices recur. Loop invariants are named predicates over values, with a lemma for each step. In `Serving`,
the rules for reading streams and applying events are passed as a parameter, so that the methods in between do not
depend on what they say. In `ServerSteps`, a step that leaves other clients alone takes any property of theirs, and
gives it back.

## Model

| member | source | states |
|---|---|---|
| `Words.AlignUp` | src/wut/elf2rpl/utils.h:103-108 | the result is the least multiple not below the value, for the alignments in use |
| `ElfSymbols.FindSymbol` | src/wut/elf2rpl/main.cpp:89-105 | the search answers the first typed symbol at the address, else the first one there, and nothing exactly when no symbol is there |
| `ElfRead.ElfFile.ReadSymbols` | src/wut/elf2rpl/main.cpp:279-357 | the list is the reserved four, then a copy of each kept entry of the symbol tables, in file order; it fails exactly when a symbol section has another name |
| `ElfRead.ElfFile.ReadImports` | src/wut/elf2rpl/main.cpp:359-401 | each library's imports sit at every fourth byte of its range; one stub per import follows all earlier symbols, and of these only trampoline names change, each having moved to its stub; it goes through exactly when every stub word is there and leads to a symbol |
| `ElfRelocs.FindImport` | src/wut/elf2rpl/main.cpp:107-119 | the nested search answers the first import, in library order, whose stub or trampoline is at the address, and nothing exactly when none is |
| `ElfRelocs.SlotOfFirst` | src/wut/elf2rpl/main.cpp:438-440 | an addend at the stub or the trampoline of some import means the slot of the first such import, and one at none means no slot |
| `ElfRelocs.ResolveAddend` | src/wut/elf2rpl/main.cpp:436-457 | the symbol and addend chosen stand for what the address denotes: an import, an exact symbol, or a section base plus the distance; it fails exactly when the address is none of these |
| `ElfCarried.AddendMeans` | src/wut/elf2rpl/main.cpp:436-457 | what an addend means, by the stub words and the symbol table: the slot of the first stub word that is at the address or holds it, else the address itself if some symbol has it or it lies in the text or data, else nothing |
| `ElfRelocs.SearchSkipsStubs` | src/wut/elf2rpl/main.cpp:436-457 | an address search never answers the null symbol or a stub, and a search for a base answers index 1 or 2 |
| `ElfRelocs.ReadRelocations` | src/wut/elf2rpl/main.cpp:403-463 | the kept relocations follow the earlier ones in table order, each standing for what its addend denotes; it fails exactly at a misplaced one, and uses a null pointer exactly at a patch where there is no data, whichever comes first |
| `ElfRelocs.ReadDynRelocations` | src/wut/elf2rpl/main.cpp:465-536 | the same for the loader's relocations, without padding and targets out of range, those with a symbol getting no pointer; it fails exactly when one is not acceptable |
| `ElfSections.RplWriter.AddSection` | src/wut/elf2rpl/main.cpp:550-562 | the section symbol is inserted behind the earlier ones, so the reserved four and the order of all others stay |
| `ElfSections.OrderDistinct` | src/wut/elf2rpl/main.cpp:550-562 | inserting any number of section symbols leaves a list without repetition |
| `ElfSections.RplWriter.AddDataSections` | src/wut/elf2rpl/main.cpp:600-636 | one output section per input section, in input order, with its name, kind and range |
| `ElfSections.FindSection` | src/wut/elf2rpl/main.cpp:564-578 | the search answers the first section containing the address, and nothing exactly when none does |
| `ElfRelaSections.AddRelaSections` | src/wut/elf2rpl/main.cpp:638-676 | it succeeds exactly when a section is found for every target, where the first relocation section made hides later misses; then every target's section has a relocation section, and each names its owner |
| `ElfRelaSections.SearchReaches` | src/wut/elf2rpl/main.cpp:641-652 | which targets the search finds a section for: those in input sections, and once there is a relocation section almost all others |
| `ElfRelaSections.WithRelaLinks` | src/wut/elf2rpl/main.cpp:650-674 | linking one more relocation section keeps all links: one owner each, named by `info` |
| `ElfOutput.PredictLoadAddress` | src/wut/elf2rpl/main.cpp:678-696 | the load address is 0xC0000000 and the lengths of all symbol names, the entries of all symbols and the lengths of all section names, each rounded up to 16, behind it |
| `ElfImportSlots.AddImportSections` | src/wut/elf2rpl/main.cpp:698-734 | every library's section is at its load address and every import symbol has its slot; other symbols keep their addresses |
| `ElfImportSlots.SectionSize` | src/wut/elf2rpl/main.cpp:712-715 | the least room that takes the header and the library name, rounded up to 8, and a slot per import |
| `ElfImportSlots.LoadIsSum` | src/wut/elf2rpl/main.cpp:699-733 | short of 32-bit wrap-around the sections follow each other without gaps |
| `ElfImportSlots.ImportSectionsDisjoint` | src/wut/elf2rpl/main.cpp:698-734 | the import sections of any two libraries do not overlap |
| `ElfImportSlots.SlotInSection` | src/wut/elf2rpl/main.cpp:705-724 | every slot lies in its own library's section, past the 8-byte header |
| `ElfImportSlots.SlotsDistinct` | src/wut/elf2rpl/main.cpp:698-734 | no two imports share a slot, within a library or across libraries |
| `ElfConvert.PruneSymbols` | src/wut/elf2rpl/main.cpp:736-742 | erasing in place leaves exactly the symbols that are not prunable, in order, and destroys exactly the others |
| `ElfConvert.PrunedOwns` | src/wut/elf2rpl/main.cpp:736-742 | after pruning the list holds exactly the symbols that still exist |
| `ElfConvert.KeptMembers` | src/wut/elf2rpl/main.cpp:736-742 | a symbol survives pruning exactly when it was listed and is not prunable |
| `ElfConvert.KeptRank` | src/wut/elf2rpl/main.cpp:736-742 | a surviving symbol moves down by the number of pruned ones before it |
| `ElfConvert.KeptReserved` | src/wut/elf2rpl/main.cpp:736-742 | the reserved symbols keep their hard-coded indices |
| `ElfConvert.EntryKeepsMeaning` | src/wut/elf2rpl/main.cpp:765-800 | for a symbol that is still listed, output symbol plus addend is what the relocation meant, whatever has moved, and the type is kept, 22 being written as 1 |
| `ElfConvert.FallbackKeepsMeaning` | src/wut/elf2rpl/main.cpp:775-800 | what is written after reading a destroyed symbol means what it should exactly when the word read is still the symbol's address |
| `ElfEmit.ConvertRelocations` | src/wut/elf2rpl/main.cpp:746-805 | one entry per relocation, in order, of its type, appended to the relocation section of the section it targets; it goes through exactly when every relocation's symbol exists, and else stops at the first whose symbol does not |
| `ElfEmit.MakeEntry` | src/wut/elf2rpl/main.cpp:765-800 | the entry is the one the relocation calls for, of its type, and there is one exactly when the symbol exists |
| `ElfOutput.ConversionGoesThrough` | src/wut/elf2rpl/main.cpp:736-788 | conversion reads no destroyed symbol and no null pointer exactly when no relocation means a label or nothing |
| `ElfOutput.ConversionIsSound` | src/wut/elf2rpl/main.cpp:736-805 | after section insertion, slot layout and pruning, every entry still means what was read and is where it belongs |
| `ElfOutput.EmitFile` | src/wut/elf2rpl/main.cpp:580-805 | the whole writing stage: it fails exactly when some target is in no section, and reads a bad pointer exactly where one is; else all entries are emitted with their meaning, in their sections, and the import sections and slots are set from the predicted load address |
| `ElfConverter.HomeIsTargetSection` | src/wut/elf2rpl/main.cpp:638-676 | where input sections do not overlap, an entry lands in the relocation section whose `info` is the index of the section containing its target |
| `ElfConverter.EntriesLand` | src/wut/elf2rpl/main.cpp:746-763 | the same of the finished object, for all entries at once, each section holding exactly its entries in order |
| `ElfFinish.UpdateSections` | src/wut/elf2rpl/main.cpp:825-839 | relocation sections are linked to the symbol table, sections get their final sizes, and so do their symbols; nothing else of a symbol changes |
| `ElfFinish.ImportsStay` | src/wut/elf2rpl/main.cpp:698-1148 | the import sections keep their names, addresses and sizes to the end, and the load address is the predicted one |
| `ElfStrings.TableRoundTrip` | src/wut/elf2rpl/main.cpp:853-864 | for any list of names, the string at each recorded position of the finished table is the name |
| `ElfStrings.TableLength` | src/wut/elf2rpl/main.cpp:853-864 | the table holds nothing but a leading terminator and each name that is not empty with its own |
| `ElfStrings.BuildStrTab` | src/wut/elf2rpl/main.cpp:853-864 | the data is the table of all symbol names, and every symbol has its position |
| `ElfStrings.BuildShStrTab` | src/wut/elf2rpl/main.cpp:932-943 | the same for section names |
| `ElfFinish.NamesRoundTrip` | src/wut/elf2rpl/main.cpp:853-943 | in the finished object, every symbol's and every section's position leads back to its name |
| `ElfLayout.AssignOffsets` | src/wut/elf2rpl/main.cpp:1066-1148 | the four loops compute the four passes of `Layout` |
| `ElfLayout.LayoutIsSound` | src/wut/elf2rpl/main.cpp:1066-1148 | below 4 GiB, every section is placed exactly once, at a multiple of 64 behind the headers; checksums and file info come first, then what is in the data, then what is above it, then the rest, each in list order; and all together take no more room than their sizes rounded up |
| `ElfLayout.LayoutIsDisjoint` | src/wut/elf2rpl/main.cpp:1066-1148 | the data of any two sections do not overlap in the file |
| `ElfInput.ReadFile` | src/wut/elf2rpl/main.cpp:279-536 | how reading ends for every input: in failure, at a null pointer, or with each relocation standing for what the input denotes |
| `ElfInput.TableIsRead` | src/wut/elf2rpl/main.cpp:371-392 | once imports are read, which entries of the symbol table pruning will destroy is a matter of the table and of the addresses that imports lead to |
| `ElfInput.TableLabels` | src/wut/elf2rpl/main.cpp:89-105 | a search over the symbol table answers a symbol that pruning will destroy exactly at the labels |
| `ElfConverter.AstrayInInput` | src/wut/elf2rpl/main.cpp:403-536 | which inputs send a pointer astray, by their relocations and symbol table alone |
| `ElfCases.LabelGoesAstray` | src/wut/elf2rpl/main.cpp:736-788 | every input with one import and one relocation to a label passes every check and reads a destroyed symbol |
| `ElfIndex.IndexSymbols` | src/wut/elf2rpl/main.cpp:879-914 | every symbol gets the first section whose range holds its address, or for section symbols at zero the first of its name; it fails exactly when a symbol is at 0xFFFFFFFF |
| `ElfIndex.ImportIndexed` | src/wut/elf2rpl/main.cpp:879-914 | an import symbol gets its own library's section, where nothing in front reaches up to the import sections |
| `ElfFinish.PlaceTables` | src/wut/elf2rpl/main.cpp:945-957 | the symbol table is at 0xC0000000, and the string tables are behind it and each other with the room that was predicted |
| `ElfFinish.FinishFile` | src/wut/elf2rpl/main.cpp:807-1148 | the stages behind the relocations: they fail exactly when a listed symbol is at 0xFFFFFFFF, and else record every name and section and lay out the file, changing nothing that relocations depend on |
| `ElfConverter.StrandedInInput` | src/wut/elf2rpl/main.cpp:879-887 | which inputs leave a symbol at 0xFFFFFFFF: those with a table entry there that is not pruned, or a section |
| `ElfConverter.ConvertObject` | src/wut/elf2rpl/main.cpp:279-1148 | the converter end to end: how the conversion of every input ends, as a function of the input's own numbers; if it goes through, the input's sections are there with their names, kinds, addresses and sizes; every relocation of the input is in the output once, in order, where it belongs, of its type, and comes to the addend's address or to the slot of the import that the addend belongs to; every entry of the symbol table is a symbol with its address, size, type and binding, listed unless it is erased; names, import sections, slots, table addresses and file offsets are sound, and every symbol is recorded in a section that contains it |
| `ElfEnds.EndsByInput` | src/wut/elf2rpl/main.cpp:279-1148 | which inputs fail, which go through a null or destroyed pointer, and which go through, by symbol names, stub words, relocation fields, table entries and section ranges alone, in the program's order |
| `ElfEnds.LabelsByInput` | src/wut/elf2rpl/main.cpp:89-105 | an address leads to a symbol that pruning destroys exactly when the first table entry there is named, no entry there has a type, and that first one has no size |
| `ElfEnds.EntriesKept` | src/wut/elf2rpl/main.cpp:318-357 | every table entry that is read is the symbol behind those of the entries in front of it, with its address, size, type and binding; only an import gives it another name, and it is listed to the end unless it is erased |
| `ElfCarried.EntriesBecame` | src/wut/elf2rpl/main.cpp:403-805 | the carried relocations of the input are exactly the entries, in order, each with its offset and its type, and symbol plus addend coming to what the addend asks for |
| `ElfCases.FarSymbolFails` | src/wut/elf2rpl/main.cpp:884-887 | an input with one typed symbol at 0xFFFFFFFF passes every check and fails in the end |
| `ElfConverter.PlacedImportsAreApart` | src/wut/elf2rpl/main.cpp:698-734 | in the finished object the sections of two libraries do not overlap |
| `ElfConverter.PlacedSlotIsInside` | src/wut/elf2rpl/main.cpp:705-724 | in the finished object every slot lies in its own library's section, past the header |
| `ElfConverter.PlacedImportIsRecorded` | src/wut/elf2rpl/main.cpp:879-914 | in the finished object every import symbol is recorded in its own library's section, where nothing in front reaches up to the import sections |
| `PathNames.NormalizeIdempotent` | src/vfs/vfs_path.c:92-130 | a resolved path has no "." or "..", and resolving again changes nothing |
| `PathNames.NormalizeConcat` | src/vfs/vfs_path.c:92-130 | resolving a joined path is resolving its second part on what that part's underflows leave of the first |
| `PathNames.NormalizeResolvedConcat` | src/vfs/vfs_path.c:31-32 | resolving the second part first loses exactly its underflows |
| `PathNames.EarlyResolveIsLexical` | src/vfs/vfs_path.c:19-35 | resolving before merging agrees with lexical resolution exactly when the directory is the root or the path never climbs above its own start |
| `PathNames.EarlyResolveLosesParent` | src/vfs/vfs_path.c:31-32 | the smallest input for which it does not |
| `PathNames.SurvivorsAreNormal` | src/vfs/vfs_path.c:92-130 | the resolved path is the subsequence of components still on the stack, in their order |
| `PathList.VfsPath.Resolve` | src/vfs/vfs_path.c:92-130 | in place: the nodes left are the survivors among the original ones, in an acyclic list and in order, with the names of the functional resolution; the others are freed, all but the ".." nodes |
| `PathList.FreePathEnt` | src/vfs/vfs_pathent.c:105-116 | every node of the list is freed once and unlinked |
| `PathList.AppendList` | src/vfs/vfs_pathent.c:20-32 | the two lists become one, in order |
| `PathList.Clone` | src/vfs/vfs_path.c:132-162 | the copy has the same components and shares no node |
| `PathList.Merge` | src/vfs/vfs_path.c:164-202 | null exactly for missing or relative destinations, else a fresh path: the absolute second one, or the two resolved together; the arguments are unchanged |
| `PathList.DetachLast` | src/commands/cdup.c:5-26 | the last component is detached in place and freed; an empty list stays |
| `PathText.SplitSegment` | src/vfs/vfs_pathent.c:51-72 | a component and the separators behind it split off as one |
| `PathText.Parse` | src/vfs/vfs_pathent.c:39-89 | the components between separators, none for rejected text, in a fresh list; the buffer is restored; it reads past the terminator exactly when separators follow the last component of accepted text |
| `PathText.RejectedReads` | src/vfs/vfs_pathent.c:39-89 | rejected text has a character outside the printable range with no separator right in front of it, or only separators; text is read past its end exactly if it ends in a separator, is not only separators, and is not rejected |
| `PathPrint.Acquire` | src/vfs/vfs_path.c:55-84 | the buffer holds the printed path, and is null exactly when a path with components needs the whole buffer or more |
| `PathPrint.NewPath` | src/vfs/vfs_path.c:19-35 | null exactly for missing or empty text; else absolute as the text says, with the resolved components of the text |
| `PathPrint.SplitJoin` | src/vfs/vfs_path.c:72-81 | splitting joined names gives the names back |
| `PathPrint.ParsePrinted` | src/vfs/vfs_pathent.c:39-89 | parsing a printed path gives back its components and whether it is absolute, and reads no further |
| `PathPrint.PrintThenMake` | src/vfs/vfs_path.c:19-84 | printing a resolved path and making a path of the text gives the same path whenever it fits |
| `Commands.FindCommand` | src/commands.c:44-51 | the linear search computes the lookup |
| `Commands.LookupIsMembership` | src/commands.c:13-42 | no mnemonic is listed twice, so an entry is found exactly when the table holds it |
| `Commands.OpenCommands` | src/commands.c:13-42 | exactly USER, PASS, QUIT, REIN and NOOP are open without a login |
| `Commands.HandlersByWord` | src/commands.c:13-42 | which words lead to the handlers that matter to the login and to the directory |
| `CommandWords.RespondByWord` | src/commands.c:13-75 | what a command makes of a session, told by its word alone: USER, PASS, QUIT, REIN and NOOP for everybody, LIST, PWD, CWD, CDUP, PASV, PORT, SYST, ALLO and the words that do nothing for those logged in, 530 or 502 for anything else |
| `CommandWords.RunByWords` | src/commands.c:53-75 | over every history the session is what the words of its commands say |
| `CommandWords.LoginAnswers` | src/commands.c:14-20 | USER, PASS and PWD of a new client are answered 331, 230 and 257 |
| `Sessions.StateReflects` | src/commands/pass.c:4-22 | over every history the state word says which of the words USER, PASS and QUIT stand since the last USER or REIN |
| `Sessions.DisconnOverHistories` | src/ftp.c:185 | over every history the disconnect bit is set exactly when a QUIT stands |
| `Sessions.LoginOverHistories` | src/ftp.h:20 | over every history the state word is 2 or more exactly when a QUIT stands, or a USER and a later PASS |
| `Sessions.LoginBeforeQuit` | src/commands.c:53-75 | before any QUIT, exactly when a USER and a later PASS stand |
| `Directories.CwdStaysResolved` | src/commands/cwd.c:4-15 | over every history the working directory stays resolved, with proper names |
| `Directories.CdupIsParent` | src/commands/cdup.c:33-37 | CDUP is a raw ".." resolved against the directory, and does nothing at the root |
| `Directories.ChdirIsLexical` | src/commands/cwd.c:4-15 | a successful relative CWD is lexical resolution exactly when the directory is the root or the argument never climbs above its own start |
| `Directories.ChdirParentStays` | src/commands/cwd.c:4-15 | `CWD ..` stays where it is, in every directory |
| `Directories.CwdIsTypedPath` | src/commands/cwd.c:4-15 | over every history of tame arguments the directory is everything typed so far, resolved at once |
| `Clients.Client.DoCwd` | src/commands/cwd.c:4-15 | the directory moves exactly when the target exists, with reply 250, else 550 |
| `Clients.Client.DoCdup` | src/commands/cdup.c:33-37 | the last component goes, in place, with reply 250 |
| `Clients.Client.CommandInvoke` | src/commands.c:53-75 | the session moves by exactly what the word says, and the command is logged; an argument is parsed past its end exactly for a CWD of such text by a client that has logged in |
| `IoBuffers.SizeAlign` | src/iobuffer.c:8-15 | the next multiple strictly above the size |
| `IoBuffers.IoBuffer.Append` | src/iobuffer.c:79-97 | all of the data or none, by whether it fits |
| `IoBuffers.IoBuffer.FindEol` | src/iobuffer.c:99-106 | the position of the first newline, or -1 |
| `IoBuffers.IoBuffer.Next` | src/iobuffer.c:108-139 | the first line is in the line buffer and off the buffer; nothing exactly without a newline; and exactly when a kept newline fills the buffer does the NUL not fit |
| `ControlChannel.NetworkReadBuffer` | src/network.c:161-183 | as much as fits is appended; a full buffer is an error |
| `ControlChannel.GetMnemonic` | src/ftp.c:65-95 | a leading word of letters is found and ended in place, exactly when there is one, and what follows it is found |
| `ControlChannel.UpperInPlace` | src/ftp.c:112-115 | the word in upper case, and nothing behind it touched |
| `Framing.LinesConcat` | src/iobuffer.c:121-139 | cutting a stream anywhere finds the same lines and the same rest |
| `Framing.LinesAre` | src/iobuffer.c:99-139 | a line is what is in front of a newline, without a carriage return at its end; without a newline there is none |
| `Framing.ParseReads` | src/ftp.c:65-121 | a line is a request exactly if it is white space, a word of letters, white space and a parameter that begins with none, up to its first NUL; the word is put in capitals |
| `Framing.RestFits` | src/network.c:169-170 | if all lines of a stream fit, so does what is left over at every point of it |
| `Framing.RequestsRoundTrip` | src/ftp.c:65-121 | reading back any encoded list of requests gives exactly that list, and the unfinished line behind it |
| `Framing.EncodedFits` | src/ftp.c:17 | a stream of requests fits when each request does |
| `Serving.NewClient` | src/ftp.c:269-292 | a new client is nobody, in the root directory, with two empty buffers of 1088 bytes that share nothing |
| `Serving.ProcessCommand` | src/ftp.c:101-121 | a line is executed as the one request it stands for, or ignored |
| `Serving.HandleControlEvents` | src/ftp.c:123-153 | after every poll the log and buffer are in step with the bytes received; the client is closed exactly on end, error or a full buffer, and idle during a transfer; only a received request with a stray argument stops it |
| `Turns.Accept` | src/ftp.c:198-238 | an accepted client is a new one that has been given "220 FTPservU, here to serve you!", which waits in its output buffer |
| `Turns.TextsFrom` | src/ftp.c:338-346 | the texts of a turn, behind those given before, read as the client's replies of that turn, in their order |
| `Turns.HandleClient` | src/ftp.c:173-187 | one turn: a dead transfer is reported and let go of; the connection is served unless a transfer is running, and the client closed exactly when that ends or there is no room; the replies go out; and the client is released exactly when a QUIT stands |
| `Departures.QuitsAgree` | src/ftp.c:185-186 | whether a QUIT stands is a matter of the requests executed: one is a QUIT, and none after it a USER or REIN |
| `Departures.WholeUnderEveryChunking` | src/ftp.c:173-187 | however an encoded list of requests is cut, all are served before a turn can leave a QUIT standing, exactly when none but the last is a QUIT |
| `Departures.QuitThenNoop` | src/ftp.c:185-186 | QUIT and NOOP, cut in between: the client is released with QUIT alone served |
| `Departures.ReinInTime` | src/ftp.c:185-186 | QUIT, REIN and NOOP: served whole in one piece, released behind QUIT if cut there |
| `ServedStreams.ReceivedDecides` | src/ftp.c:123-153 | between any two turns, the executed commands are the requests in the bytes received, and the buffer is the unfinished rest |
| `ServedStreams.CommandsRoundTrip` | src/ftp.c:65-153 | a client that has received any encoded list of requests and part of another, in any chunks, has executed exactly that list, in order |
| `ServedStreams.ChunksDoNotMatter` | src/ftp.c:123-153 | clients that received the same bytes, in any chunks, have executed the same commands |
| `ServedStreams.SessionOverRuns` | src/ftp.c:123-153 | between any two turns, the session is what the words of the commands so far make of a new one, and the client is logged in exactly when a QUIT stands, or a USER and a later PASS |
| `ServedStreams.ServeStream` | src/ftp.c:173-187 | a run of turns over any stream, cut in any way: if all lines fit, the client is never closed for want of room; the client is released with the first turn that leaves a QUIT standing, and only then; else the run goes on to the end, unless an argument is parsed past its end or a reply overruns the line buffer |
| `ServedStreams.ServedWhole` | src/ftp.c:173-187 | behind a run over a list of requests of which none but the last is a QUIT, exactly that list has been executed, in order, however it was cut |
| `Replies.FtpResponse` | src/ftp.c:338-346 | the whole reply is appended, or nothing when it does not fit; what is appended is the code in digits, a space, the message and a line end |
| `Replies.LinesConserve` | src/iobuffer.c:121-148 | the complete lines and the rest are the whole text |
| `Replies.Writeln` | src/network.c:185-200 | the socket is offered the C string in one piece and takes some front of it, or fails |
| `Replies.HandleOutput` | src/ftp.c:155-171 | every complete line is offered, in order and once, and the rest is kept; of each line the socket has a front; only a line that fills the buffer overruns |
| `Replies.FrontsWhole` | src/network.c:193-198 | fronts of lines add up to the lines exactly when every one is whole |
| `Replies.RespondAndSend` | src/ftp.c:155-171 | each text reads as its code and message; of the replies of a turn that fit the buffer, in order and once, the socket has a front each, and all of their text exactly when every send took its whole line |
| `Replies.FittingAll` | src/iobuffer.c:79-97 | no reply is dropped exactly when all fit together |
| `Replies.LinesOfConcat` | src/iobuffer.c:121-148 | lines put together are taken off as those very lines, with nothing left |
| `Dtp.WriteBufferedData` | src/dtp/dtp.c:16-43 | a packet, or what there is, is offered to the sink, and what it takes moves from the buffer to it; nothing is lost or repeated |
| `Dtp.FillBuffer` | src/dtp/dtp.c:45-55 | only an empty buffer is refilled; 0 means that the source is at its end |
| `Dtp.CopyRound` | src/dtp/dtp.c:57-92 | a round conserves every byte; it finishes only with everything delivered, breaks exactly when a read or a write fails, and otherwise comes closer to the end when the sink is prompt |
| `Dtp.SendData` | src/dtp/dtp.c:94-100 | one packet of up to 1500 bytes out; closed only with everything delivered, in error exactly when a read or a write fails, and else closer to the end when the sink is prompt |
| `Dtp.ReceiveData` | src/dtp/dtp.c:102-108 | the same the other way, in packets of 512 bytes |
| `Dtp.SendToEnd` | src/dtp/dtp.c:57-100 | with a prompt sink a transfer ends, closed with the whole source delivered exactly unless a read or a write failed |
| `DtpPoll.TryAccept` | src/dtp/passive.c:12-42 | a pending passive channel is established with the accepted descriptor, fails or waits, as the socket answers; others wait; a direction it was given before is forgotten |
| `DtpPoll.CheckReady` | src/dtp/dtp.c:119-128 | an established channel starts in the direction it was given |
| `DtpPoll.Poll` | src/dtp/dtp.c:130-179 | every channel is served exactly once and takes the step that is due: it is accepted as its socket answers, starts, or moves a packet on; the next list is what is left, last first, then the waiting channels, which are as they were; every transfer still conserves its bytes |
| `DtpPoll.RequeuedIsPermutation` | src/dtp/dtp.c:166-174 | exactly the channels that were not free are kept, once each |
| `DtpPoll.NewDataChannel` | src/dtp/dtp.c:193-222 | a new channel, with a buffer of its own, waits for the next poll; none without an address |
| `DtpPoll.SendFile` | src/dtp/dtp.c:275-286 | only the first file is taken, and the direction is set |
| `DataEvents.HandleDataEvents` | src/ftp.c:24-54 | 226 exactly for a closed channel, and then everything has been delivered; 420 for other dead ones; the client leaves the transfer state exactly when it is over |
| `DtpRuns.PollOnce` | src/dtp/dtp.c:130-179 | one poll, and every channel there is conserves its bytes and is in the lists once or has been given back; those polled take the step that is due and the others none; no state code falls, no dead channel comes back, and none becomes free by it |
| `DtpRuns.PollRounds` | src/dtp/dtp.c:130-179 | any number of polls: a transfer between open descriptors to a prompt sink comes closer to its end with each, and enough of them deliver the whole source, or end in an error exactly if a read or a write fails; one without a direction is never started |
| `DtpRuns.OpenJoined` | src/dtp/dtp.c:193-222 | a new channel joins those that wait, shares nothing with the others and leaves them alone |
| `Seats.HeldIsListed` | src/ftp.c:24-54 | a client's channel is in the lists and has not been given back |
| `ServerSteps.TurnStep` | src/ftp.c:173-187 | a client takes its turn among the others: it receives what is there, nobody else is touched, it lets go of its channel exactly when its transfer is over, which marks that free, and loses its seat exactly when a QUIT stands |
| `ServerSteps.PollStep` | src/ftp.c:249-250 | a poll of all channels brings each a step on and leaves every client as it was |
| `ServerSteps.ConnectStep` | src/ftp.c:198-238 | a client that connects is ready for its turn and shares nothing with anybody |
| `ServerRuns.Opening` | src/commands/pasv.c:8-33 | a client gets a channel in the place of the one it may have; exactly a PASV for a client that has one frees it instead |
| `ServerRuns.Perform` | src/ftp.c:241-258 | one step of the server does what it should, by what there is to see of it before and behind, and keeps all that holds between steps; it ends the run exactly as said, and a second PASV by freeing a channel that is in the lists |
| `ServerRuns.Run` | src/ftp.c:241-258 | over any steps of a server of up to 25 clients, each does what it should: clients are let in, receive what there is room for and leave, channels are opened, given files and polled; every transfer conserves its bytes, every channel is in the lists once or has been given back, no state code falls, every client is in step with what it has received, and no two share anything or a channel |
| `ServerRuns.RunFromStart` | src/ftp.c:241-258 | so it is from a start without clients and channels, and every run ends early only at a step that ends it |
| `Scatter.AddrInjective` | src/hbl.c:155-186 | in disjoint areas no two bytes of the image share an address |
| `Scatter.InitAreaTable` | src/hbl.c:69-109 | the table is the linked list of the listed areas |
| `Scatter.TableIsDisjoint` | src/hbl.c:55-66 | no two areas of the table overlap, wherever the application ends |
| `Scatter.ArgsSize` | src/hbl.c:113-116 | the room for the arguments is enough exactly up to 64 KiB |
| `Scatter.MemoryEnd` | src/hbl.c:69-117 | the arguments are rounded up to 8 bytes behind the program, or at 0x00802000 for a program that ends past the limit |
| `Scatter.TableRoom` | src/hbl.c:55-66 | the areas hold 0x05450760 bytes less what the application takes |
| `Scatter.CopyOverAreas` | src/hbl.c:155-184 | over any chain of disjoint areas the copy succeeds exactly when they have room; each byte is at its place and nothing else changes |
| `Scatter.GatherImage` | src/hbl.c:155-184 | reading the areas in order gives the image back |
| `Scatter.HomebrewCopyMemory` | src/hbl.c:111-187 | an executable of the console is in the areas, with memory outside them unchanged, exactly if it is no longer than 0x05450760 less where the application ends; any other image is behind the application; the result is its length, or -1 exactly when there is no room |
| `SdFat.FsAlign` | src/fs/sd_fat_devoptab.c:36-37 | the least multiple of 64 not below a size that does not wrap |
| `SdFat.SdFile.Read` | src/fs/sd_fat_devoptab.c:328-384 | however the device cuts the bytes up, the buffer holds the file's next bytes, the position moves past exactly those, nothing beyond the buffer's length is written, and all is read up to the end of the file |
| `SdFat.SdFile.Write` | src/fs/sd_fat_devoptab.c:267-326 | the device is given exactly a prefix of the data, in order and once, and the position moves past exactly that |
| `PortCodec.FieldsJoin` | src/commands/port.c:12-32 | up to white space, an argument is its fields with commas between them |
| `PortCodec.JoinThenFields` | src/commands/port.c:12-32 | joining fields and taking them apart gives the fields back |
| `PortCodec.ParsePortArgs` | src/commands/port.c:5-43 | an address comes out exactly for six numbers of at most 255, with their value; it stores past the end exactly when six commas are reached |
| `PortCodec.SixNumbers` | src/commands/port.c:12-43 | six numbers of up to three digits are an address exactly if none is above 255, the first four making the address from the highest byte down, the last two the port |
| `PortCodec.DoPort` | src/commands/port.c:45-58 | accepted exactly with neither part 0 |
| `PortCodec.AddressRoundTrip` | src/commands/pasv.c:21-27 | every address that PASV formats is what PORT reads (section 4.1.2 of RFC 959) |

## Left out

- ConvertObject: the meaning of entries is stated for at most 2^24 symbols, since the info word has 24 bits for the
  symbol index; the "hope for the best" branch that only patches the image (`src/wut/elf2rpl/main.cpp:450-457`) drops
  the relocation from those to be carried, and the patching itself is not modelled.
- LayoutIsDisjoint: is stated for a total size below 2^32, beyond which the offsets wrap.
- ImportSectionsDisjoint: is stated for load addresses below 2^32, for the same reason; nothing is claimed of import
  sections against the tables, whose sizes are predicted before the last names are added.
- ImportIndexed: needs that nothing in front of the import sections reaches up to them, as an input section may.
- Of the converter: section data, flags and alignments, checksums, file-info constants, the contents of import
  sections, and reading and writing files.
- Of reading: the earlier pass over `.rela.dyn` that patches the loader image, with its failures, behind which the stub
  words are taken; that library names are there; that a patched word may be one that is still to be read; and that the
  null symbol's value, which the code adds to an addend before one range test, is zero.
- Conversion after reading a destroyed symbol or a null pointer: a run ends there.
- Clients: a session records replies as codes; what stands behind each code is a parameter of a turn. The replies of a
  turn are put into the output buffer at its end rather than one by one, as nothing looks at the buffer in between.
- RespondAndSend: a reply's text is on one line; for a formatted message that is not, only `HandleOutput` is stated.
- DoList: the listing and the data connection that is to take it; whether it does is a parameter, and with it the
  connecting of an active channel (`src/dtp/active.c:36-49`), which no poll does. Sending a buffer over
  a channel is not modelled, as the code treats the buffer pointer as a descriptor (`src/dtp/dtp.c:94-100`).
- DoPort: in `Clients`, whether the argument was accepted is a parameter; `PortCodec.DoPort` decides it.
- CommandInvoke: a CWD argument is parsed in a copy rather than in the line buffer; parsing restores the text, so this
  matters only where it reads past the terminator, and there the run ends.
- A client is not used after its cleanup: when the connection ends, a run ends, where the code goes on with freed
  memory (`src/ftp.c:144`, `src/ftp.c:184-186`). A client that has quit is released with nothing left to do.
- ServerRuns.Run: a channel is opened, and given a file, by steps of their own rather than by the handlers within a
  turn, so that a turn looks at its channel as the polls have left it; clients take turns in any order, where the code
  takes them by slot. What is behind a second PASV, or one that gets no channel, is not modelled.
- Releasing a channel other than by its free state (`src/commands/pasv.c:10-13`, `src/dtp/passive.c:57-61`).
- FreeChannel: which descriptors are closed at release; the channel's buffers are not tracked after it.
- ParsePortArgs: numbers are unbounded, so the overflow of a long run of digits is not modelled.
- CopyOverAreas: is stated for areas and images whose sizes do not add up to 2^32; the image is a value apart from the
  areas, and the word at its offset 7 a parameter. `HomebrewCopyMemory` takes images shorter than 2^31.
- Directory listings, logging, the console, input, shaders, system wrappers and the commands with empty bodies.
