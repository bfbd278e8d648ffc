# libdap: descriptions, projections, transfer and the shared cache, verified

A Dafny model of the parts of libdap that read and write dataset descriptions, find and mark variables,
send values, and share a file cache between processes, with proofs of what these parts promise together.
`dafny verify dfyconfig.toml` checks everything.

- **Dataset descriptions (DDX).** `DdxPrinter` says which elements a dataset, its variables and its attribute
  tables write; `DdxWriter` has the loops that write them. `DdxMachine` is the parser as a pushdown machine with
  its three stacks over the events of an XML library, and `DdxParser` the parser object whose callbacks update
  those stacks in place. `DdxInvariant` proves what every run keeps, for any event sequence; `DdxGrammar` that
  acceptance is membership in a grammar of documents, and shows the one kind of document for which it is not;
  `DdxAcceptance` extends that grammar to every sequence of callbacks, by what OtherXML really swallows;
  `DdxMeaning` gives documents a compositional meaning, without any stack, and proves that the machine accepts
  just the documents that have one and builds just that; `DdxDeclared` reads that meaning off the elements, so that
  every variable declared is there, in order, with what is declared in it; `DdxRoundTrip` proves that parsing what
  was printed rebuilds the dataset, for every chunking of character data and any white space between elements, and
  exactly when nothing is lost.
- **Projections.** `Lookup` specifies the search by dotted or leaf name with the path it records, `Finder` has
  the recursive loops over a path stack that carry it out. `LookupExact` says which variable a name finds, and that
  one is found if there is any. `Erasure` shows that the flags do not matter to it.
  `Marking` is the dataset object with `mark` and `mark_all`, and ties the flags they set to the declarative
  projection: printing under a constraint and parsing gives the tree of the named variables.
- **The file cache.** `Cache` is a transition system: any number of processes, inodes, one advisory lock per
  process and file, the info-file counter, and each operation step by step as its system calls go.
  `CacheSafety`, `CacheProgress` and `CacheCounter` prove unlink safety, deadlock freedom and the counter
  invariant over all interleavings, and give concrete runs that deadlock when a caller's obligation is dropped.
  `CacheExact` proves when a purge records the exact total, and gives a run in which it does not; `CacheLedger`
  what an update adds and when the counter is the exact total of the files counted. `CacheCalls` states what each
  call waits for and what it has changed when it returns.
  `Purge` is `update_and_purge` of one process as the program runs it, with the sorted list and the loop.
- **The DAP4 data stream.** `Varint` has the unrolled writer and the loop-based reader of lengths, `Endian`
  byte orders and the in-place swap, `Wire` the marshaller and unmarshaller objects, `Transfer` whole trees of
  scalars and Structures from serialization to deserialization into the projected declaration, and the size
  estimate.
- **The rest.** `ArrayShape` (dimensions, constraints, the row-major walk), `Attributes` and `Text` (attribute
  tables and the encoding of names), `DasTransfer` (handing the attributes of a DAS to a dataset), `Ais` (the
  ancillary information database, written and read), `Dap4Machine`, `Dap4Parser`, `Dap4Acceptance` and
  `Dap4Declared` (the DAP4 parser, with enumeration definitions, the grammar of what it accepts, and what it builds).

Some of the properties one would expect are false of the code. The model keeps the code as it is; the theorems
say exactly when the property holds:

- lengths are read back only below 2^31, because the reader shifts in `int` (`Varint.ReaderInvertsWriterIffSmall`);
- a double between hosts of different byte order arrives only if it is all zero bits, because it is repaired with
  the 32-bit swap (`Endian.Float64ArrivesIff`);
- attributes without values are lost on a re-read (`DdxRoundTrip.RoundTripIff`);
- the recorded size is not always the total of the directory right after a purge: it is so exactly when no file
  left has grown since the scan, as when nobody is writing (`CacheExact.ExactIff`, `CacheExact.PurgeMissesGrowth`);
- `purge_file` can overwrite the size that another process has recorded (`CacheLedger.LateWriteOverwrites`);
- a name with a zero byte does not survive its encoding (`Text.IdentifierReturnsIff`);
- an array's length is not the number of its elements when a dimension is empty (`ArrayShape.LengthIsProductIff`);
- a constraint with a negative start or a long backward range can be let through
  (`ArrayShape.ConstrainedFitsIff`, `ArrayShape.NegativeStartSlipsThrough`);
- a variable does not always claim the container of its name: an unnamed one is given a copy of them all, which
  go to the global table as well, and a dotted name leads into containers (`DasTransfer.FoundByNameIff`,
  `DasTransfer.InBothPlaces`, `DasTransfer.DottedIsNotClaimed`);
- a top-level container with an alias makes the transfer of attributes throw if nobody claims it
  (`DasTransfer.AliasedGlobalThrows`), and the attributes of a Grid go to its array as well when that has the
  Grid's name (`DasTransfer.GridAttributesAreDoubled`);
- the DAP4 parser reads no arrays and no Grids (`Dap4Acceptance.ArraysAreNeverRead`);
- a printed alias makes the whole document unreadable (`DdxInvariant.PrintedAliasIsRejected`);
- the parser accepts some documents with a nested Attribute element inside OtherXML that are in no reasonable
  grammar (`DdxGrammar.UntameDocumentIsAccepted`; `DdxAcceptance.AcceptedIff` says which);
- the path stack misses the array when its template of simple type is what a name finds, so marking leaves the
  array itself out (`Lookup.StackIsAncestorsIff`, `Marking.DDS.Mark`);
- a %20 in a container's name can make a duplicate entry (`Attributes.AppendContainerKeepsDistinctIff`);
- resources without a URL make the AIS database unreadable (`Ais.RoundTripIff`);
- enumeration constants of UInt64 from 2^63 on are refused (`Dap4Machine.ConstRecordedIff`, `Dap4Machine.RefusedThoughValidIff`);
- a purge can remove a file under the purging process's own read lock, or silently give that lock up
  (`CacheSafety.OwnLockInPurge`).

The stand-ins for what lies outside: XML text is a sequence of events or tokens with names as tokens; the clock,
the order of access times, which files other processes have locked during one purge, the regular expression
matcher of the AIS database, the order in which its map is walked, and the in-memory size of a string object are
parameters. An exception is a `thrown` flag in the parsers, which ends the parse, and a failing result elsewhere.

## Model

| member | source | states |
|---|---|---|
| DdxInvariant.ErrorReachesEnd | DDXParserSAX2.cc:276-283 | An error state, once recorded, is still on the state stack after any further events, even when a start tag pushed more states on top of it |
| DdxInvariant.ErrorStaysForever | DDXParserSAX2.cc:235-238 | Stronger: the error and every state below it keep their positions for the rest of the run; no pop ever reaches them |
| DdxInvariant.StartKeepsValid | DDXParserSAX2.cc:586-813 | No start tag, in whatever state and with whatever attributes, puts the three stacks out of step, unless it throws |
| DdxInvariant.EndKeepsValid | DDXParserSAX2.cc:815-992 | The same for every end tag |
| DdxInvariant.ParentTakesVariable | DDXParserSAX2.cc:498-517 | When a variable is finished its parent is below it and can hold it: the complaint about a non-constructor parent and the exception of a Grid never come up |
| DdxInvariant.DeclaredWhereHeld | DDXParserSAX2.cc:443-470 | A variable is declared only in a state whose variable may hold it, and in the parse state its type asks for |
| DdxInvariant.EveryRunIsValid | DDXParserSAX2.cc:586-992 | For every event sequence, well formed or not: bt_stack has one entry plus one per variable state, of matching type; at_stack one more per open container; no pop meets an empty stack |
| DdxInvariant.AcceptedRunIsBalanced | DDXParserSAX2.cc:552-584 | After an accepted parse the three stacks are back at their bottoms |
| DdxInvariant.AcceptedRunIsClean | DDXParserSAX2.cc:1097-1124 | An accepted parse has recorded no error at any point |
| DdxInvariant.PrintedAliasIsRejected | DDXParserSAX2.cc:342-351 | A document with an Alias element as the printer writes it, anywhere outside OtherXML, is never accepted: printer and parser name its source differently |
| DdxGrammar.OpeningFollowsGrammar | DDXParserSAX2.cc:600-806 | State by state, a start tag is taken exactly when the grammar places that element in that content |
| DdxGrammar.StartFollowsGrammar | DDXParserSAX2.cc:586-813 | From a clean state a start tag records no error if and only if the element may stand there and has its required attributes |
| DdxGrammar.EndFollowsGrammar | DDXParserSAX2.cc:815-992 | An end tag records no error if and only if an array or map got a dimension and OtherXML closes in the document's namespace; the stacks are then as before the start tag |
| DdxGrammar.NodeFollowsGrammar | DDXParserSAX2.cc:586-992 | The events of a whole element leave the machine where it was when the element is in the grammar, and with an error when it is not |
| DdxGrammar.AcceptanceIsMembership | DDXParserSAX2.cc:1097-1124 | A document is accepted if and only if it is in the DDX grammar and no callback threw, for all documents without a nested same-namespace Attribute inside OtherXML |
| DdxGrammar.UntameDocumentIsAccepted | DDXParserSAX2.cc:876-910 | That exception is needed: a concrete document outside the grammar that the parser accepts |
| DdxAcceptance.MarkupRuns | DDXParserSAX2.cc:876-905 | Inside OtherXML any events up to the closing tag are taken, nested or not, with an error exactly when more elements end than are open; what is left open counts in the next OtherXML |
| DdxAcceptance.ClosesIff | DDXParserSAX2.cc:815-992 | Which end tags close an element: its own, any tag for an Alias, either blob tag for a blob, any simple type for a simple type; every other is an error |
| DdxAcceptance.ItemsFollow | DDXParserSAX2.cc:586-992 | The events of any items leave the machine where it was if and only if the items belong there and the depth of the markup left open never falls below zero |
| DdxAcceptance.AcceptedIff | DDXParserSAX2.cc:1097-1124 | For every sequence of callbacks, nested Attributes, mismatched tags and all: accepted if and only if no callback throws and it is the events of a member of the grammar of items |
| DdxAcceptance.DivisionIsUnique | DDXParserSAX2.cc:586-992 | No sequence of events divides into items in two ways, so that grammar is unambiguous |
| DdxMeaning.NodeMeans | DDXParserSAX2.cc:586-992 | The events of an element that fits do to the stacks what its compositional meaning says, text in any number of pieces; the machine throws exactly when there is none, because a name clashes or an alias names no container |
| DdxMeaning.AcceptedMeaning | DDXParserSAX2.cc:1097-1124 | In terms of the document alone: one in the grammar is accepted if and only if it has a meaning (no attribute of it clashes, every alias names a container), and the dataset built is that meaning; of documents outside the grammar only some with a nested Attribute in OtherXML are accepted |
| DdxMeaning.AliasElementIff | DDXParserSAX2.cc:342-351 | An Alias element is taken without a throw if and only if its source names a container, seen from the table around it, and the alias has a new name |
| DdxMeaning.DanglingAliasIsRejected | AttrTable.cc:956-961 | A concrete document in the grammar that is rejected for an alias of nothing |
| DdxMeaning.AliasOfContainerIsAccepted | AttrTable.cc:971-983 | A concrete document with an alias of a container: accepted, with the container and the alias in the dataset's table |
| DdxMeaning.VariableFromContent | DDXParserSAX2.cc:472-518 | What is given to the parent is the variable its content makes, with the attributes collected within it and no others |
| DdxMeaning.AttributeFromContent | DDXParserSAX2.cc:303-337 | A container collects its own table; an attribute's values go to the table it stands in |
| DdxMeaning.AllMarkupRun | DDXParserSAX2.cc:876-905 | Markup within OtherXML is collected in order and leaves the nesting depth as it was |
| DdxDeclared.AcceptedIsDeclared | DDXParserSAX2.cc:1097-1124 | Read off the elements alone: a document in the grammar is accepted if and only if no table in it has clashing attributes or an alias of nothing; the parse has then built the dataset of that name, with its attributes and the variables of its variable elements, in document order |
| DdxDeclared.ContentDeclares | DDXParserSAX2.cc:472-518 | The elements in a variable give it their variables, dimensions and attributes, all of them in order: a Grid its array and every map, a constructor every field, an array the template last given and its name |
| DdxDeclared.OneMoreVariable | Grid.cc:459-483 | add_var of a variable element's parent: a Grid or a constructor has one part more, behind those it had; an array has this template and no other |
| DdxDeclared.OneForEach | DDXParserSAX2.cc:498-517 | For each variable element there is its variable, at the place of the element among them |
| DdxDeclared.HeaderIsRead | DDXParserSAX2.cc:405-412 | The protocol version of the root element and the reference of the last blob element are read, and nothing else touches them |
| DdxPrinter.ConstrainedPrintIsProjection | Array.cc:757-781 | Printing a variable under the constraint writes what an unconditional walk over its declarative projection writes |
| DdxPrinter.ConstrainedDatasetIsProjection | DDS.cc:1130-1248 | The same for the whole dataset |
| DdxWriter.WriteTable | AttrTable.cc:1415-1480 | The loop over the entries writes the table's elements in order behind what was written, and fails exactly on an OtherXML attribute without exactly one value |
| DdxWriter.WriteDimensions | Array.cc:730-754 | One dimension element for each dimension, with the constrained size under a constraint |
| DdxWriter.WriteVar | BaseType.cc:1094-1111 | Writes the variable's element, or nothing outside the projection, behind what was written; fails exactly when an attribute in it cannot be written |
| DdxWriter.WriteVars | Constructor.cc:559-580 | The fields in order, under the same failure condition |
| DdxWriter.WriteDataset | DDS.cc:1130-1248 | The whole document, global attributes, variables and data reference in order |
| DdxRoundTrip.ReadIsRun | DDXParserSAX2.cc:994-1015 | However character data is cut into chunks and whatever text stands between elements, the parser ends in the same state |
| DdxRoundTrip.EventsRender | DDXParserSAX2.cc:994-1034 | The plainest event sequence of a written document is one of those renderings |
| DdxRoundTrip.ReadTable | AttrTable.cc:1415-1480 | Parsing a printed attribute table adds its entries to the table on top, in order, but for attributes without values |
| DdxRoundTrip.ReadVar | DDXParserSAX2.cc:360-518 | Parsing a printed variable, at any depth, gives its parent that variable with its attributes, fields, template and dimensions |
| DdxRoundTrip.RoundTrip | DDS.cc:1130-1248 | For every dataset of named scalars, Structures, Sequences and Arrays and every rendering of its document: the parse is accepted and rebuilds it, in order |
| DdxRoundTrip.DatasetRenders | DDS.cc:1130-1248 | Every such dataset has a rendering, so the round trip is not vacuous |
| DdxRoundTrip.GoodDatasetIsPrintable | AttrTable.cc:1452-1475 | Printing such a dataset never fails |
| DdxRoundTrip.KeptIff | AttrTable.cc:1462-1475 | An attribute table comes back unchanged if and only if no attribute in it, at any depth, lacks a value |
| DdxRoundTrip.RereadIsDeclarationIff | BaseType.cc:1094-1111 | A variable's declaration comes back unchanged if and only if none of its attributes lacks a value |
| DdxRoundTrip.RoundTripIff | DDS.cc:1130-1248 | The round trip restores all declarations if and only if all attributes have values |
| DdxRoundTrip.ConstrainedRoundTrip | Array.cc:730-781 | Printing under a constraint and parsing gives the projection: variables not sent are gone, array dimensions have their constrained sizes |
| DdxParser.DDXParser.constructor | DDXParserSAX2.cc:531-548 | The initial stacks are in step |
| DdxParser.DDXParser.CheckRequiredAttribute | DDXParserSAX2.cc:276-283 | True even for a missing attribute, which is recorded as an error |
| DdxParser.DDXParser.ProcessAttributeElement | DDXParserSAX2.cc:303-337 | Does to the parser object what the machine's transition does, container, OtherXML or plain |
| DdxParser.DDXParser.ProcessAttributeAlias | DDXParserSAX2.cc:342-351 | Ends in the alias state, with an error below it for each missing attribute; the alias is in the table on top, or its exception has ended the parse |
| DdxParser.DDXParser.ProcessVariable | DDXParserSAX2.cc:360-382 | New variable and table on the stacks, a recorded error for a missing name outside arrays or an unknown type |
| DdxParser.DDXParser.ProcessDimension | DDXParserSAX2.cc:387-401 | Appends the dimension to the array on top; an error when the top is no array |
| DdxParser.DDXParser.IsAttributeOrAlias | DDXParserSAX2.cc:421-436 | Taken exactly for the two tags, with the matching transition |
| DdxParser.DDXParser.IsVariable | DDXParserSAX2.cc:443-470 | Taken exactly for variable tags, with the matching transition |
| DdxParser.DDXParser.FinishVariable | DDXParserSAX2.cc:472-518 | Pops the variable and gives it to its parent; wrong tag, wrong type and missing dimension are recorded |
| DdxParser.DDXParser.StartElement | DDXParserSAX2.cc:586-813 | The whole start callback, proved to be the machine's step; every look at a stack top finds an entry |
| DdxParser.DDXParser.EndElement | DDXParserSAX2.cc:815-992 | The whole end callback, likewise; every pop finds an entry |
| DdxParser.DDXParser.GetCharacters | DDXParserSAX2.cc:997-1015 | Collects chunks in a value and in OtherXML, and keeps the stacks in step |
| DdxParser.DDXParser.GetCdata | DDXParserSAX2.cc:1041-1059 | CDATA is an error outside OtherXML |
| DdxParser.DDXParser.Callback | DDXParserSAX2.cc:586-1093 | After any callback the object is valid again or has thrown |
| DdxParser.DDXParser.Parse | DDXParserSAX2.cc:1097-1124 | Accepts exactly the documents the machine accepts, and ends in the state of the machine's run |
| Finder.FindIn | Constructor.cc:183-191 | The search by class of variable finds and records what the search specification says |
| Finder.FindInVector | Vector.cc:380-404 | An array passes the search to its template and pushes itself after a hit; over simple types it takes any name |
| Finder.MatchExactly | Constructor.cc:235-266 | Pushes itself before it descends for the rest of a qualified name |
| Finder.MatchLeaf | Constructor.cc:208-231 | The loop finds the first hit in order and pushes itself after it |
| Finder.TopMatchExactly | DDS.cc:741-768 | Qualified names go through a lookup of their first part |
| Finder.TopMatchLeaf | DDS.cc:705-738 | The loop over the top level finds the first hit and leaves the rest of the stack alone |
| Finder.FindVar | DDS.cc:691-702 | Exact match, then leaf match; what the stack holds afterwards is what was there plus the recorded path |
| Lookup.StackIsAncestorsIff | DDS.cc:691-768 | When a name is found the stack holds exactly the proper ancestors, each once, if and only if the variable is not the template of an array of simple type; for one, exactly the array is missing |
| Lookup.FoundHasName | Constructor.cc:208-266 | The variable found bears the last part of the name, except a template found through a trailing dot or an array of simple type |
| Lookup.LeafNamesAreExact | DDS.cc:705-738 | A name without a dot finds a variable of exactly that name with its whole path on the stack |
| LookupExact.LeafNameFinds | DDS.cc:705-738 | A name without a dot finds the first top-level variable of that name, and otherwise the first in document order; so it finds one whenever there is one |
| LookupExact.NamesLead | Constructor.cc:235-266 | Below a variable of distinct undotted names a dotted name finds a place if and only if the names, one after the other, lead there: every name but the first names a field of where the one before has led |
| LookupExact.DottedNameFinds | DDS.cc:741-768 | In the dataset: a dotted name finds just what its further names lead to from what its first name finds, and nothing when that finds nothing |
| LookupExact.QualifiedNameFinds | DDS.cc:691-702 | The names of the constructors around a variable and its own, joined by dots, find exactly that variable |
| Erasure.FlagsDoNotMatter | DDS.cc:691-768 | What a name finds, and the path recorded, do not depend on what has been marked |
| Marking.DDS.MarkAll | DDS.cc:1445-1449 | Sets every flag in the dataset |
| Marking.DDS.Mark | DDS.cc:1398-1437 | Sets the flags of the variable, its descendants and its ancestors, no other flag, and nothing else; changes nothing for an unknown name. For the template of an array of simple type the array itself is left out |
| Marking.DDS.UnwindStack | DDS.cc:1416-1424 | Popping the path stack sets exactly the flags of the variables on it |
| Marking.DDS.Project | DDS.cc:1398-1449 | After mark_all(false) and any marks, a flag is set if and only if one of the names covers that variable |
| Marking.MarkTreeSent | Constructor.cc:124-131 | set_send_p sets the flags of all descendants, arrays' templates included |
| Marking.MarkedSent | DDS.cc:1411-1411 | Marking at a place sets the flags there and below, and no other flag |
| Marking.ProjectionSendsTemplates | Vector.cc:343-347 | After any marks every array in the projection has its template there |
| Marking.ProjectionRoundTrip | DDS.cc:1398-1449 | After mark_all(false) and any marks, printing under the constraint and parsing gives the tree of the named variables, their descendants and ancestors, with constrained dimensions |
| CacheSafety.StepIsSafe | DAPCache3.cc:221-384 | Every step of every process keeps the lock table consistent, each process's locks as its place in the code implies, and each file it counts on in the directory |
| CacheSafety.NoUnlinkUnderLock | DAPCache3.cc:893-902 | In every run of any number of processes, purge_file included: a file is unlinked only by a process that has it exclusively, while no other process has any lock on it |
| CacheSafety.ReturnedLockIsLive | DAPCache3.cc:570-613 | In every run: a lock that get_read_lock or create_and_lock returns is on a file still in the directory under that name |
| CacheSafety.CreateNeverBlocks | DAPCache3.cc:356-384 | In every run the lock on a file just created is free for its creator |
| CacheSafety.OthersKeepMyLocks | DAPCache3.cc:170-207 | No step of one process touches another process's lock |
| CacheSafety.OwnLockInPurge | DAPCache3.cc:304-341 | A purge that meets the process's own shared lock overrides and unlinks the file exactly when nobody else has a lock, and silently drops that lock exactly when somebody has |
| CacheProgress.WaitersAreRanked | DAPCache3.cc:650-683 | Under the discipline a process waits only for one of strictly lower rank |
| CacheProgress.NoDeadlock | DAPCache3.cc:862-939 | In every reachable state with an operation pending some process can go on, for any number of processes |
| CacheProgress.WaitingIsAcyclic | DAPCache3.cc:570-640 | The wait-for graph has no cycle, and no chain of more than three |
| CacheProgress.DeadlockWithoutDiscipline | DAPCache3.cc:598-640 | Without the discipline a deadlock is reachable from an empty cache: a concrete run |
| CacheProgress.DeadlockWithPurgeFile | DAPCache3.cc:952-992 | With purge_file a deadlock is reachable even under the discipline: a concrete run |
| CacheCounter.NeverUnderReports | DAPCache3.cc:727-762 | In every reachable state the recorded size is at least the total of the completed files present |
| CacheCounter.BoundsAfterPurge | DAPCache3.cc:862-939 | What a purge writes lies between the total of the completed files and the total of the directory |
| CacheExact.ExactIff | DAPCache3.cc:862-939 | In every run: what a purge writes is the total of the directory if and only if no file left in it has grown since the scan looked at it |
| CacheExact.ExactWhenNobodyWrites | DAPCache3.cc:862-939 | If no file is locked for writing when the purge has got the cache, it writes the total of the directory, whatever the other processes do meanwhile |
| CacheExact.PurgeMissesGrowth | DAPCache3.cc:824-848 | Otherwise it need not: a concrete run in which another process's file grows between the scan and the write, so the counter ends below the total |
| CacheLedger.UpdateAddsSize | DAPCache3.cc:727-762 | In every run without purge_file: what update_cache_info records is the size recorded when it got the cache, whatever the others do until it writes, plus the size of that file |
| CacheLedger.CounterIsExact | DAPCache3.cc:727-762 | In every such run in which each file is counted once, when nobody writes to it: outside a purge the recorded size is the total of the files counted, which is that of the directory when all have been |
| CacheLedger.PurgeFileAlone | DAPCache3.cc:952-992 | purge_file without interference removes the file, takes its size off the recorded one and gives both locks up |
| CacheLedger.LateWriteOverwrites | DAPCache3.cc:977-988 | With interference it does not: what another process has recorded since purge_file read the size is overwritten |
| CacheCalls.WaitsForCacheIff | DAPCache3.cc:650-668 | get_read_lock and get_cache_size wait only for a process that has the cache for writing, every other call for any that has it at all |
| CacheCalls.WaitsForFileIff | DAPCache3.cc:221-297 | A reader waits only for a writer of the file, purge_file for anybody |
| CacheCalls.GetReadLockAlone | DAPCache3.cc:570-584 | The whole call: a shared lock on the file and no other change; nothing when the file is not there |
| CacheCalls.CreateAndLockAlone | DAPCache3.cc:598-613 | The whole call: a new empty file under that name, locked for writing, and no other change; nothing when there is one already |
| CacheCalls.UpdateCacheInfoAlone | DAPCache3.cc:727-762 | The whole call: the recorded size is more by the size of the file, and no lock or file has changed |
| CacheCalls.DowngradeAndUnlock | DAPCache3.cc:628-715 | exclusive_to_shared_lock leaves one's own shared lock, and nobody has the file for writing; unlock_and_close leaves none; neither touches another lock |
| CacheCalls.PurgeBeginsIff | DAPCache3.cc:879-884 | The purge loop starts if and only if the scanned total exceeds the limit; otherwise that total is recorded |
| CacheCalls.RemovedIff | DAPCache3.cc:886-906 | In its round a file goes if and only if it is not the new one, is still there, and no other process has it locked |
| CacheCounter.NoUnderflow | DAPCache3.cc:899-906 | In every run the purge loop subtracts no more than its total |
| Purge.SortIsOrdered | DAPCache3.cc:802-805 | Sorting orders the files by access time and neither loses nor adds any |
| Purge.SortIsStable | DAPCache3.cc:846-846 | Files of the same time keep the directory's order |
| Purge.StopsOnce | DAPCache3.cc:880-912 | There is at most one place where the purge may stop: as far as it must go and no further |
| Purge.CacheDirectory.Collect | DAPCache3.cc:808-849 | The files with the cache's prefix, oldest first, and their total |
| Purge.CacheDirectory.RemoveOldest | DAPCache3.cc:884-912 | The loop removes the eligible files of a prefix of the sorted list, above the target before each and done at the end; its running total is the total of what is left |
| Purge.CacheDirectory.UpdateAndPurge | DAPCache3.cc:862-939 | Removes exactly the removable files of the shortest oldest-first prefix that reaches the target, or all of them; only such files go, the oldest first and no more than needed; spares the rest and records the total of the survivors |
| Purge.PurgedOldestFirst | DAPCache3.cc:884-912 | Only files of the cache that are neither new nor locked by another process go; and if one goes, so does every such file that was used before it |
| Purge.PurgedJustEnough | DAPCache3.cc:880-912 | No file goes within the limit; above it the target is met or nothing removable is left; and with the last file to go the target was still exceeded |
| Varint.EncodeIsCanonical | DAP4StreamMarshaller.cc:76-145 | The form written is a complete varint without superfluous zeros and stands for the value |
| Varint.CanonicalIsUnique | DAP4StreamMarshaller.cc:76-145 | No other sequence of that shape has the same value |
| Varint.CanonicalIsShortest | DAP4StreamMarshaller.cc:76-145 | No varint with the same value is shorter |
| Varint.WriterSizeIsEncodedLength | DAP4StreamMarshaller.cc:81-116 | The three-part binary search finds the shortest length for every 64-bit value |
| Varint.WrittenByte | DAP4StreamMarshaller.cc:118-143 | Each byte cut from the overlapping 32-bit parts is the right base-128 digit |
| Varint.WriteVarint64ToArrayInline | DAP4StreamMarshaller.cc:76-145 | The unrolled writer puts exactly the shortest form at the front of the buffer and leaves the rest alone |
| Varint.FitsLengthBuffer | DAP4StreamMarshaller.cc:424-435 | The nine-byte buffer holds the form if and only if the value is below 2^63 |
| Varint.WideReaderInvertsWriter | DAP4StreamUnMarshaller.cc:223-238 | With the shift done in 64 bits reading undoes writing for every 64-bit value, consuming exactly the bytes written |
| Varint.ReaderInvertsWriterIffSmall | DAP4StreamUnMarshaller.cc:223-238 | As written, with the shift in int, reading undoes writing if and only if the value is below 2^31, whatever follows |
| Varint.ReadsFormIff | DAP4StreamUnMarshaller.cc:223-238 | Any varint of up to five bytes, superfluous zeros or not, is read to its end, as its value if and only if that is below 2^31 |
| Varint.ReadFailsIff | DAP4StreamUnMarshaller.cc:223-238 | Of every stream: the length runs into its end if and only if all of its bytes, five at the most, ask for another; its shift is undefined if and only if a sixth byte is asked for and there |
| Endian.ReceiverMakesRight | DAP4StreamUnMarshaller.cc:132-153 | For either order on either side an integer of any width arrives unchanged |
| Endian.Float64ArrivesIff | DAP4StreamUnMarshaller.cc:176-192 | A double arrives intact if and only if the orders agree or all its bits are zero, because of the 32-bit swap |
| Endian.SwapElementsTwice | DAP4StreamUnMarshaller.cc:328-358 | Swapping all elements twice changes nothing |
| Endian.VectorArrives | DAP4StreamUnMarshaller.cc:328-358 | Swapping turns the sender's memory of a vector into the receiver's |
| Endian.TwiddleVectorElements | DAP4StreamUnMarshaller.cc:328-358 | The in-place loop swaps each element and nothing behind them; fails untouched for a width other than 2, 4 or 8 |
| Wire.Marshaller.PutNumber | DAP4StreamMarshaller.cc:290-312 | Host-order bytes go to the checksum and, when data is written, to the stream; without a checksum it fails and writes nothing |
| Wire.Marshaller.PutLengthPrefix | DAP4StreamMarshaller.cc:424-435 | The varint, only when data is written |
| Wire.Marshaller.PutStr | DAP4StreamMarshaller.cc:399-407 | Length and bytes to the stream, bytes only to the checksum |
| Wire.Marshaller.PutBytes | DAP4StreamMarshaller.cc:437-442 | Writes the bytes even when no data is to be written |
| Wire.Marshaller.PutVaryingVector | DAP4StreamMarshaller.cc:536-540 | The element count is on the stream before the vector can fail |
| Wire.UnMarshaller.GetLengthPrefix | DAP4StreamUnMarshaller.cc:223-238 | The do-while loop returns what the reader specification says and stops right behind the varint |
| Wire.UnMarshaller.GetNumber | DAP4StreamUnMarshaller.cc:132-153 | Takes the width's bytes and swaps when the orders differ |
| Wire.UnMarshaller.GetFloat64 | DAP4StreamUnMarshaller.cc:176-192 | Takes eight bytes and repairs them with the 32-bit swap |
| Wire.UnMarshaller.GetStr | DAP4StreamUnMarshaller.cc:242-250 | Length, then that many bytes |
| Wire.UnMarshaller.GetOpaque | DAP4StreamUnMarshaller.cc:267-275 | Fails when the stream gives another length than expected |
| Wire.UnMarshaller.GetVector | DAP4StreamUnMarshaller.cc:361-375 | All bytes at once, then the elements swapped in place; fails for other widths only when a swap is due |
| Wire.UnMarshaller.GetVaryingVector | DAP4StreamUnMarshaller.cc:384-402 | As many elements as the stream announces |
| Wire.NumberArrives | DAP4StreamUnMarshaller.cc:120-153 | Put then get gives the number back for every width and both orders on both sides |
| Wire.StrArrivesIff | DAP4StreamUnMarshaller.cc:242-250 | A string is read back with exactly its bytes consumed if it is shorter than 2^31 bytes, and never if it is not |
| Wire.VectorGetsThrough | DAP4StreamUnMarshaller.cc:361-375 | A vector of width 2, 4 or 8 ends up in memory as the receiver itself would store it, exactly its bytes consumed |
| Wire.VaryingVectorGetsThrough | DAP4StreamUnMarshaller.cc:384-402 | The same behind its length, for fewer than 2^31 elements |
| Wire.ElementsAreThere | DAP4StreamMarshaller.cc:507-523 | The elements read from that memory are those sent |
| Transfer.SerializeFields | Constructor.cc:416-448 | The loop emits the values of the fields in the projection one after the other, the checksum without the lengths |
| Transfer.Deserialize | DAP4StreamUnMarshaller.cc:120-250 | Reading into a declaration gives what the specification says, or fails with it |
| Transfer.DeserializeFields | Constructor.cc:451-458 | The loop fills the fields in order |
| Transfer.ArrivesIff | Constructor.cc:416-458 | Serialize, then deserialize into the projected declaration: for every suffix, exactly the bytes written are consumed and every projected value restored, if strings are shorter than 2^31 and doubles survive; if not, it fails or differs |
| Transfer.AllArriveIff | DODSFilter.cc:874-880 | The same for the variables of a dataset in the projection |
| Transfer.GetRequestSize | DDS.cc:535-549 | The loop adds up the widths of the variables in the projection |
| Transfer.RequestSizeIsBytesSent | DDS.cc:535-549 | Under any marking the estimate is the number of bytes sent but for the strings, by exactly the difference of their encoded and in-memory sizes |
| Transfer.RequestSizeIsExact | Constructor.cc:165-180 | For trees of fixed-width scalars the estimate is the number of bytes sent, under any marking |
| Transfer.WidthIsRange | DAP4StreamMarshaller.cc:268-397 | The width of each number type is what its range needs: 2^8, 2^16, 2^32 or 2^64 patterns by name |
| Transfer.NumberOnTheStream | DAP4StreamMarshaller.cc:268-388 | The very bytes of 8-, 16- and 32-bit values on the stream, from hosts of either byte order |
| Transfer.WideNumberOnTheStream | DAP4StreamMarshaller.cc:306-397 | A 64-bit value is its two 32-bit halves, the lower first from a little-endian host |
| Transfer.TextOnTheStream | DAP4StreamMarshaller.cc:399-407 | A string or URL is its bytes behind their number |
| Transfer.UnconstrainedIsEverything | DDS.cc:535-549 | Without the constraint the estimate is that for the dataset with everything marked |
| ArrayShape.ConstrainedSizeIsCountIff | Array.cc:378-383 | The computed size is the number of selected indices if and only if the constraint does not run backwards, or falls between one and two strides short |
| ArrayShape.LengthIsProductIff | Array.cc:72-80 | The length is the number of combinations of selected indices if and only if no dimension is empty; with an empty one there is no combination but the length is still positive |
| ArrayShape.EmptyDimensionCountsAsOne | Array.cc:72-80 | A concrete array with a dimension of size 0: five elements by its length, no index to any |
| ArrayShape.Array.AppendDim | Array.cc:243-260 | Keeps the shape invariant: every constrained size counts its indices, all inside the dimension; the length is the product of these counts exactly when none is zero |
| ArrayShape.Array.PrependDim | Array.cc:268-286 | The same at the front |
| ArrayShape.Array.ResetConstraint | Array.cc:303-315 | Every dimension is full again and length follows |
| ArrayShape.Array.AddConstraint | Array.cc:359-387 | For any arguments: refused exactly when start, stop, stride or count exceed the size or the stride is not positive, changing nothing; otherwise that dimension and the length change, and the shape invariant holds if and only if the range runs forward from zero or above or stops between one and two strides short |
| ArrayShape.AdmitsFromZero | Array.cc:372-376 | From a start of zero or above the test of the count refuses nothing that the other tests let through |
| ArrayShape.ConstrainedFitsIff | Array.cc:378-383 | A constraint that is let through selects what its size says, inside the dimension, if and only if it runs forward from zero or above or stops between one and two strides short |
| ArrayShape.NegativeStartSlipsThrough | Array.cc:372-376 | A concrete constraint that starts at -1, is let through and selects -1 |
| ArrayShape.OverflowsIff | Array.cc:72-80 | Some product on the way to the length exceeds the range of int if and only if the length itself does |
| ArrayShape.Array.PrintVal | Array.cc:858-884 | Prints as many elements as the length says, the product of the constrained sizes: 0, 1, ... in order, each once |
| ArrayShape.ElementPrinter.PrintArray | Array.cc:817-848 | Visits index, index + 1, ... in order, each once, and returns the index behind the block |
| ArrayShape.RowMajorIsInside | Array.cc:817-848 | Every combination of indices has a place in that walk |
| ArrayShape.RowMajorIsOnto | Array.cc:817-848 | Every place in it belongs to a combination |
| ArrayShape.RowMajorIsInjective | Array.cc:817-848 | Distinct combinations have distinct places |
| ArrayShape.TruncatesTowardZero | Array.cc:378-383 | The division of the constrained size is that of C++: toward zero, for either sign |
| ArrayShape.LengthOfAny | Array.cc:72-80 | Whatever the constrained sizes are, the length is the product of them, each taken as one at least |
| Text.RemoveSpaceEncoding | AttrTable.cc:62-76 | The replacing loop ends and decodes every %20 |
| Text.AddSpaceEncoding | AttrTable.cc:79-93 | The replacing loop ends and encodes every space |
| Text.DecodeInvertsEncodeIff | AttrTable.cc:62-93 | Decoding undoes encoding if and only if the name has no %20 of its own |
| Text.DecodeIsIdempotent | AttrTable.cc:62-76 | Decoding leaves no %20, so decoding again changes nothing |
| Text.AtoiReads | DDXParserSAX2.cc:387-401 | A size in decimal is read as that number, with white space before it and text behind it |
| Text.AtoiInvertsDecimal | Array.cc:742-746 | A dimension size survives being written and read |
| Text.EncodeIdentifier | escaping.cc:152-164 | The replacing loop turns each character that is not allowed, and no other, into its code |
| Text.DecodeIdentifier | escaping.cc:219-234 | The replacing loop turns each code into what the stream reads from it, once |
| Text.IdentifierReturnsIff | escaping.cc:152-234 | Decoding undoes encoding if and only if the name has no zero byte, which is lost |
| Attributes.AttrTypeOfName | AttrTable.cc:98-157 | Each attribute type is recovered from its printed name |
| Attributes.AppendAttrKeepsDistinct | AttrTable.cc:311-346 | Names stay distinct whatever name is appended |
| Attributes.AppendContainerKeepsDistinctIff | AttrTable.cc:444-470 | Names stay distinct if and only if the decoded name is new, which the guard on the raw name assures for names without %20 |
| Attributes.ContainerSlipsPastGuard | AttrTable.cc:444-470 | A concrete %20 name that makes a duplicate |
| Attributes.AppendAliasKeepsDistinct | AttrTable.cc:898-984 | Names stay distinct under both alias functions |
| Attributes.RecursiveFindIsFirst | AttrTable.cc:518-536 | The recursive search finds the first entry of that name, each container before its content, if there is any |
| Attributes.FindContainerWalks | AttrTable.cc:570-602 | find_container goes from container to container along the names between the dots |
| Attributes.FindEntryIsNamed | AttrTable.cc:486-504 | find: a single name stands for the first entry of that name anywhere, a dotted one for an entry of the container the names before the last lead to |
| Attributes.AttrAliasIff | AttrTable.cc:932-984 | attr_alias throws unless its source names a container in that sense and the alias has a new name; then it adds just the alias, last |
| Attributes.AttrAliasKeepsDistinct | AttrTable.cc:1005-1021 | attr_alias keeps the names distinct, for any source |
| Attributes.AttrTable.AddAlias | AttrTable.cc:1005-1021 | The table gets the alias, or nothing changes when the code throws |
| Attributes.AttrTable.FindTarget | AttrTable.cc:486-504 | find: qualified names through their container, others anywhere in the table |
| Attributes.DelAttrKeepsDistinct | AttrTable.cc:680-708 | Names stay distinct under deletion, and a deleted name is gone |
| Attributes.DelAttrTableKeepsDistinct | AttrTable.cc:776-793 | Deleting a container by its position keeps the names distinct, and its name is gone |
| Attributes.HistoryKeepsDistinct | AttrTable.cc:311-470 | Names stay distinct through every history of appends, aliases and deletions, whole entries, values or containers, that names no container with a %20 |
| Attributes.AttrTable.Append | AttrTable.cc:311-346 | A further value or a new attribute; on a type clash nothing changes |
| Attributes.AttrTable.AppendTable | AttrTable.cc:444-470 | A new container, or nothing changes |
| Attributes.AttrTable.Delete | AttrTable.cc:680-708 | One value or the whole entry goes, the others keep their order |
| Attributes.AppendedValue | AttrTable.cc:311-346 | The value goes behind those of that name; under every other name, and in every other entry, nothing changes |
| Attributes.AppendThrowsIff | AttrTable.cc:311-346 | append_attr throws if and only if the decoded name is there as a container or with another type |
| Attributes.DeletedValue | AttrTable.cc:680-708 | Deleting one value leaves the others of that name in order, and every other name as it was |
| Attributes.DeletedEntry | AttrTable.cc:680-708 | Deleting an attribute leaves every other entry, in order, with its values |
| DasTransfer.FoundIsFindContainer | AttrTable.cc:570-602 | The search for a variable's container is that of any attribute table: dots lead into containers, and a table answers to its own name |
| DasTransfer.FoundByNameIff | BaseType.cc:706-706 | What is found is the first top-level container of the variable's name, for every DAS, if and only if that name is neither empty nor dotted |
| DasTransfer.FindsWholeIff | AttrTable.cc:586-592 | The whole DAS is found if and only if the name is empty or nothing but dots |
| DasTransfer.DAS.FindContainer | AttrTable.cc:570-602 | The recursive search, with its loop over the entries, finds what is specified |
| DasTransfer.DAS.TransferTo | BaseType.cc:705-726 | Gives the variable the entries of what its name leads to, or fails where an append throws, and marks that table not global |
| DasTransfer.DAS.Transfer | Grid.cc:765-798 | The same for a Grid: its array and maps look in its own container, and it keeps the entries that are then still global |
| DasTransfer.DDS.TransferAttributes | DDS.cc:269-314 | Succeeds if and only if no append throws; then every variable has what it takes, in order, and the global table the containers still global |
| DasTransfer.ClaimsItsOwn | BaseType.cc:705-711 | For a plain name and tables held once: a top-level container is claimed by a variable, Grid or not, if and only if it is the first of its name |
| DasTransfer.TransferConserves | DDS.cc:269-314 | For plain names and tables held once: each container is copied to the global table or claimed by a variable, never both, and claimed if and only if it is the first of a variable's name |
| DasTransfer.CopiedIff | DDS.cc:295-313 | For any names: the entries copied are just the containers whose table no search has found |
| DasTransfer.GlobalsAndClaimedAreAll | DDS.cc:295-313 | Containers claimed and containers copied make up all containers |
| DasTransfer.MergedValues | BaseType.cc:705-726 | After a variable has taken a container its earlier entries are in their places, and under every name the values from the container follow those it had, in order |
| DasTransfer.MergedContainers | BaseType.cc:705-726 | Every container within it is in the variable's table, whole |
| DasTransfer.MergedIntoEmpty | BaseType.cc:705-726 | A table of distinct names without %20 arrives unchanged in a variable without attributes |
| DasTransfer.WholeIsTaken | BaseType.cc:705-726 | A variable whose name is empty or only dots gets every top-level container, and claims none of them |
| DasTransfer.InBothPlaces | DDS.cc:269-314 | A concrete dataset with an unnamed variable: a container ends in it and in the global table |
| DasTransfer.DottedIsNotClaimed | AttrTable.cc:573-579 | A concrete container with a dot in its name that the variable of that name does not find |
| DasTransfer.AliasedGlobalThrows | DDS.cc:304-309 | A top-level container held twice, as by an alias, makes the transfer throw if nobody claims it |
| DasTransfer.ArrayTakesAll | Grid.cc:765-778 | A Grid's array of the Grid's own name is given the whole container of the Grid |
| DasTransfer.GridAttributesAreDoubled | Grid.cc:781-797 | A concrete Grid whose attribute ends in the Grid and in its array |
| DasTransfer.LeafTakes | BaseType.cc:705-726 | A variable keeps its name and attributes; under each name it has the values it had and then those of the table its name finds; without such a table nothing changes |
| DasTransfer.MergesIff | BaseType.cc:705-726 | Taking a container throws if and only if an entry of it, after those before it, finds its name taken: a container by anything, values by another type |
| DasTransfer.PartsLookInside | Grid.cc:765-778 | Each part of a Grid takes its attributes from the Grid's own container |
| DasTransfer.GridTakesTheRest | Grid.cc:781-797 | Of a container without aliases, %20 or repeated names, a Grid that had no attributes takes the attributes, and those tables that neither an earlier variable nor a part has claimed, and no others |
| DasTransfer.TakenInTurn | DDS.cc:280-292 | Every variable takes what it takes after what the variables before it have claimed |
| DasTransfer.GlobalsFitIff | DDS.cc:295-313 | The containers left over can be copied if and only if their names are new and differ from each other, as they stand and as kept |
| Ais.RoundTripIff | AISDatabaseParser.cc:103-256 | Reading a written database rebuilds the map and the patterns in order if and only if no resource lacks a URL; otherwise it is rejected |
| Ais.ReadResources | AISResources.cc:46-56 | The resources of an entry come back in order with their rules |
| Ais.ErrorStays | AISDatabaseParser.cc:103-256 | The error state is never left |
| Ais.AISParserState.OnStartElement | AISDatabaseParser.cc:103-201 | The start callback does what the machine's transition does |
| Ais.AISParserState.OnEndElement | AISDatabaseParser.cc:211-256 | The end callback likewise, adding the finished entry to the database |
| Ais.AISResources.AddUrlResource | AISResources.cc:128-139 | Resources are appended to those of a known URL |
| Ais.AISResources.AddRegexpResource | AISResources.cc:158-170 | Resources are appended to those of a known pattern, or the pattern comes last |
| Ais.AISResources.HasResource | AISResources.cc:181-192 | True if and only if the URL is known or some pattern matches it |
| Ais.AISResources.GetResource | AISResources.cc:213-232 | The resources of the first pattern that matches, then the URL's own; nothing when there are neither |
| Ais.AncillaryMeans | AISDatabaseParser.cc:149-177 | An ancillary element adds a resource if and only if its last url is not empty and its last rule, or overwrite without one, is that of the resource; otherwise it is an error |
| Ais.DocumentMeans | AISDatabaseParser.cc:103-256 | A document of entries is accepted if and only if there is nothing else in it than primary elements with an attribute and ancillary elements that offer a resource; each entry then adds its resources, in order, under its last primary, or that of the entry before it |
| Ais.AdditionsGather | AISResources.cc:128-170 | After any additions: under each URL and pattern the resources it had and those added for it, in the order they were added |
| Ais.PatternsKeepOrder | AISResources.cc:158-170 | Patterns keep the order in which they first came |
| Dap4Machine.ErrorIsNeverLost | D4ParserSax2.cc:229-235 | An error state is still there after any further events |
| Dap4Machine.StepKeepsValid | D4ParserSax2.cc:542-938 | Every event keeps the stacks in step and the root group below the variables, unless it throws |
| Dap4Machine.AcceptedIsSound | D4ParserSax2.cc:1044-1066 | An accepted document has recorded no error at any point, the states are at the bottom, and every enumeration has an integer base type and only constants of that type |
| Dap4Acceptance.StartFollowsGrammar | D4ParserSax2.cc:542-769 | From a clean state a start tag records no error if and only if the element may stand there and has its required attributes; for a constant, one in the range of its enumeration's base type |
| Dap4Acceptance.ItemsFollow | D4ParserSax2.cc:542-938 | The events of any items leave the machine where it was if and only if the items belong there and the depth of the markup left open never falls below zero |
| Dap4Acceptance.AcceptedIff | D4ParserSax2.cc:1044-1066 | For every sequence of callbacks: accepted if and only if no callback throws and it is the events of a member of the DAP4 grammar |
| Dap4Acceptance.FlatRuns | D4ParserSax2.cc:621-623 | Start tags within a value or an enumeration constant are passed over without a trace |
| Dap4Acceptance.ArraysAreNeverRead | D4ParserSax2.cc:414-431 | In no run is the parser ever inside an Array, a Grid, a Map or a dimension |
| Dap4Declared.AcceptedIsDeclared | D4ParserSax2.cc:1044-1066 | Read off the elements alone: a member of the DAP4 grammar is accepted if and only if no attributes in it clash; the parse has then built the root group with the declared variables, attributes and enumerations, in document order |
| Dap4Declared.ItemsDeclare | D4ParserSax2.cc:542-938 | The items in a group or a variable give it their variables with names, fields and attribute values, and the table its attributes, all in order |
| Dap4Declared.OneForEach | D4ParserSax2.cc:414-462 | For each variable element there is its variable, at the place of the element among them |
| Dap4Machine.ConstRecordedIff | D4ParserSax2.cc:319-345 | For a text that writes the number v, with any white space, sign, leading zeros and suffix: the constant v is recorded if and only if v is in the base type and below 2^63; if not, an error is |
| Dap4Machine.RefusedThoughValidIff | D4ParserSax2.cc:319-345 | Of the values in its base type an enumeration loses exactly those of UInt64 from 2^63 on |
| Dap4Machine.LargeConstIsRefused | D4ParserSax2.cc:319-345 | 9223372036854775808 under UInt64 is one of them |
| Dap4Machine.NoNumberIsRead | D4ParserSax2.cc:329-335 | Text without a digit after white space and sign gives no number, which is an error |
| Dap4Parser.D4ParserSax2.ProcessEnumConst | D4ParserSax2.cc:319-345 | Does to the parser object what the machine's transition does |
| Dap4Parser.D4ParserSax2.StartElement | D4ParserSax2.cc:542-769 | The whole start callback, proved to be the machine's step |
| Dap4Parser.D4ParserSax2.EndElement | D4ParserSax2.cc:771-938 | The whole end callback, likewise; every pop finds an entry |
| Dap4Parser.D4ParserSax2.Parse | D4ParserSax2.cc:1044-1066 | Accepts exactly the documents the machine accepts |

## Left out

- XML syntax: escaping, character references, encodings, DTDs and entities. Well-formedness is the XML library's:
  a document that is not well formed is rejected before the verdict.
- Aliases: an alias holds what it names as it was when the alias was made, and does not share it with the other
  entry: values appended through one name are not seen under the other. In the program the alias of a container
  in a variable's table points into a table that is deleted once it has been copied to the variable. The round
  trip is for tables without aliases, since a printed one is not read back.
- An attribute whose own type is given as a container has no table in the program, where the search for an
  alias or a transfer would follow a null pointer; the model finds nothing below it, and copies it as it is.
- A variable of a type that the factory does not know is a null pointer in the program, which it dereferences at
  once (`DDXParserSAX2.cc:360-382`); the model records the error and carries on with a variable of no type, in the
  DAP4 parser too.
- The text of OtherXML attributes: the parser collects element names and prefixes into it, the model only marks
  start and end tags. OtherXML is not part of the round trip.
- Grids and Maps: the parser reads them and the grammar has them, but they are not printed or sent here.
- Sequences: declared, printed and parsed; their rows of data are not part of this model.
- Printing for DAP 4 (`DDS.cc:1136-1158`) and the DMR; namespace, schema-location and xml:base attributes.
- Attribute tables are values: the parser's table stack holds tables that are merged into their container when
  its end tag comes, where the program links them at the start tag; the clash that this link can raise is raised
  at the start tag as in the program.
- Names are decoded once, before the search; the program decodes the rest of the name again at every level, which
  matters only for names that still hold a percent sign after decoding.
- Lookup.StackIsAncestorsIff: is for datasets without dots in component names, as a dotted name is otherwise
  ambiguous; and for a dataset without a container set.
- Marking.DDS.Mark: is for the state true. For false the code clears the flags of the ancestors too
  (`DDS.cc:1420-1421`), although its comment says that they stay (`DDS.cc:1378-1384`).
- CacheProgress.NoDeadlock: blocked lock requests wait; the kernel's own deadlock detection, which would make
  such a request fail instead, is not modelled. The theorems on deadlock and on the counter are for runs without
  `purge_file`: it counts under a lock that it has already given up (`DAPCache3.cc:977`) and waits for a file with the
  cache locked. The safety theorems have it, and `CacheLedger.PurgeFileAlone` says what it does undisturbed.
- CacheCounter.NeverUnderReports: sums are of unbounded numbers; only the subtraction in the purge loop is done
  in 64 bits, and is proved not to wrap.
- The prefix of cache files is taken not to be one of the info file's name, `dap.cache.info`; a purge would
  otherwise count that file and could remove it (`DAPCache3.cc:451`, `DAPCache3.cc:818-823`).
- The cache operations other than `update_and_purge` are steps of the transition system only, not methods. There
  a purge looks at the files in any order, which covers the sorted order of `Purge`.
  Descriptor numbers, the descriptor table, cache file names and the construction of the cache are left out, as
  is a process that dies.
- Transfer.ArrivesIff: sends through the DAP4 marshaller, where `DODSFilter.cc:869` picks the XDR marshaller,
  whose encoding is not modelled. Arrays are not in the trees: the DAP4 marshaller's `put_int` and one of its
  `put_vector` functions throw. Doubles and floats are bit patterns on hosts with IEEE reals.
- The checksum is the sequence of bytes digested; the digest function itself is not computed.
- ArrayShape.Array.UpdateLength: multiplies without the bound of a C++ `int`; `ArrayShape.OverflowsIff` says when
  that bound is exceeded on the way, which is undefined in the program. The same goes for a size of more digits
  than an `int` has, in `Text.Atoi`.
- ArrayShape.Array.PrintVal: is for arrays with at least one dimension and none empty; for the others the
  unsigned bounds of the loops wrap around (`Array.cc:822`). `clear_all_dims`, which leaves the length stale, is left
  out.
- Ais.DocumentMeans: is for documents whose primary and ancillary elements have no elements in them.
- Ais.RoundTripIff: takes text that needs no escaping and patterns with distinct texts.
- DasTransfer.DDS.TransferAttributes: is for a DAS and a dataset without a container set. Attributes that are no
  containers count as global, since nothing in the library marks one otherwise (`AttrTable.cc:881-888`). A Grid has
  its array. When it fails the model keeps the variable as it was, where the program has appended some entries.
- Dap4Declared.AcceptedIsDeclared: the dataset's name and protocol version, attributes of the root element, are not
  in the model of the DAP4 parser.
- Dap4Machine.AcceptedIsSound: there is no round trip for DAP4, as its printer is left out. Shared dimensions and nested groups
  are still to do in that parser (`D4ParserSax2.cc:591`).
- Comparison operators, constraint expressions, factories other than the parsers', dumps, HTTP, MIME, and the
  option handling of the server filter would only add easy members.
