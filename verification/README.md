# A verified model of the BFD library

BFD reads and writes object files and archives and links them. This project models its stateful
core in Dafny and proves what that core is meant to keep, over all inputs and all runs. Where the C
code changes fields, lists and buffers in place the model has classes, arrays and loops; each such
method is proved to compute a specification function, and the theorems are about those functions.

* **The file-descriptor cache** (`cache.c`, `bfdio.c`). `CacheModel` and `CacheIo` say what every
  operation does to the cache, the streams and the disk. `CacheTransparency` compares runs with a
  machine that never closes a file, `UpdateRule` follows the rule for streams opened for update (the
  `fopen` page of POSIX.1-2017), `OpenBound` counts open files, `CacheLru` shows which file is closed
  to make room, `ElementWindow` is about archive elements read through the cache. `FileCache` has the real objects with their circular list, and
  refines the model operation by operation.
* **The a.out linker passes** (`aoutx.h`). `AoutModel` specifies the symbol pass, `AoutSlots` proves
  the numbering over whole links, `AoutGroups` and `AoutHeaders` show that the flat scans over header
  groups are a transformation of trees, `AoutDedup` says the same of the flat table, `AoutLinker` is
  the imperative pass, `AoutRelocs` treats extended relocs, partial link and final link against direct
  link, and `AoutValues` reads types and values of symbols in the output.
* **Archives** (`archive.c`, `archive64.c`). `ArHeader` and `ArNames` do headers and long names,
  `ArMap`, `ArMapWrite` and `ArMapRead` the three symbol maps, `ArFile` the whole writer, `ArWalk` the
  reader on arbitrary bytes, `ArRoundTrip` and `ArOpen` put writing and reading together. `Ascii` has
  the decimal numbers in headers. For the SVR4 variant see chapter 7, "Archive File", of the System V
  ABI, Edition 4.1.
* **The two-pass format interpreter** (`bfd.c`): `FormatSpec` is the grammar of a specifier,
  `FormatScan` the pass that collects argument types, `FormatPrint` the pass that uses them, and
  `FormatPieces` says what is printed in terms of the characters of the format.
* **In-memory files** (`bfdio.c`): `MemoryFile`. **Section lists** (`bfd-in2.h`): `SectionList`.
  **The ARC global offset table** (`arc-got.h`): `ArcGotModel` and `ArcGot`.
* `Bytes` has reading and writing on a sequence of bytes, for disk and memory alike.

## Where the code does not do what one expects

Each of these is an if-and-only-if theorem, with the code left as it is.

* A SEEK_SET to a negative absolute position, on a file the cache has closed, fails but leaves the
  reopened stream at 0 while `where` keeps its old value (`CacheTransparency.TransparentExactly`,
  `LostSeekShows`).
* A file opened with `bfd_fopen` in a mode like "w", "a", "a+" or "rb+" is reopened with the rights of
  its direction: a write-only file can then be read, an appending one no longer appends, and one that
  could be written no longer can (`CacheTransparency.TransparentExactly`, `UnfitAdopted`).
* A failing seek sets `last_io` to `bfd_io_seek` although nothing was positioned, so on a stream opened for
  update the next transfer of the other kind breaks the rule that `last_io` is there for
  (`UpdateRule.RuleExactly`).
* A weak definition in data or in no section is written with the type of another section when the
  symbol is external, because N_EXT is the bit that tells those types apart
  (`AoutValues.ResolvedSymbol`, `OtherReads`).
* A specifier of 128 characters or more, such as one with a long run of digits, does not fit into the
  buffer in which `_bfd_doprnt` builds it (`FormatPrint.PrintSound`).
* `bfd_read` clips to the innermost window only (`ElementWindow.NestedExactly`).
* The COFF and 64-bit map writers do not count names that follow headers, the BSD map writer counts
  the bytes of members of thin archives, which are not there (`ArMapWrite.MapExactly`).
* A name that fills no more than the header field but holds a space is cut at the space when it is
  read without a slash behind it (`ArNames.ShortFormReads`).
* A first member named `__.SYMDEF`, `/` or the like can be read as a map or as a table of names
  (`ArOpen.OpensExactly`).
* Two neighbouring members with the same file name pointer are sized twice and filled once
  (`ArNames.SizingIsFilling`).
* A pc-relative reloc does not in general survive a partial link; `AoutRelocs.PartialThenFinal` says
  for each shape of reloc when it does.

## Assumptions

* `fclose` succeeds when a file is evicted, and so do the system calls beneath `fread`, `fwrite` and
  `fseek`, apart from seeks to negative positions and transfers in a direction the stream was not
  opened for. A file is a name with bytes: no buffering, no unlinking, no second name.
* Nobody closes a BFD that is pinned, and a BFD is opened once (`opened_once` is then set).
* The maximal number of open files is a positive constant.
* A stream stands at 0 when it is opened, one that appends as well, until it writes.
* In a hash table of the linker, links of indirect and warning symbols have no cycle; entries are
  numbered so that links go downward.
* File names of archive members have no NUL and no slash and are not empty; symbol names have no NUL.
  An archive to be read back whole is shorter than 2^63 bytes, and the counts in a map stay within 32
  bits. The 64-bit build is meant throughout.
* What the code calls and does not define has a small contract: `_bfd_final_link_relocate` adds the
  section-relative correction for pc-relative relocs as its definition at
  `gdb-15.1/bfd/reloc.c:1151-1193` does; the hash tables are maps; `ADD_RELA` adds one record.

## Model

| member | source | states |
|---|---|---|
| CacheTransparency.TransparentExactly | gdb-15.1/bfd/cache.c:251-328 | For every run: asking any BFD after any part of it, whether for its position or by writing and reading after a close-all, gives all the answers of a machine that never closes a file, if and only if no operation of the run is a SEEK_SET to a negative absolute offset on a BFD whose stream the cache has closed while its position was not 0, or a bfd_fopen that succeeds in a mode whose rights a reopening by direction would not give back |
| CacheTransparency.RunTransparent | gdb-15.1/bfd/bfdio.c:324-456 | Over every run of opens, reads, writes, seeks, tells, stats, flushes, closes, close-alls, pins and cacheable marks on any number of files, in which nothing of that kind is lost, all results and all client-visible states equal those of the plain machine |
| CacheTransparency.StepTransparent | gdb-15.1/bfd/cache.c:251-328 | One operation, whatever it evicts or reopens on the way, keeps "where equals the position the client sees" for every BFD and answers as the plain machine does |
| CacheTransparency.LostSeekShows | gdb-15.1/bfd/cache.c:274-286 | The one seek that is not transparent: it fails on both machines, but with the cache the stream is then at 0 and the next tell says so, where the plain machine stays at its old, non-zero position |
| CacheTransparency.LookupAt | gdb-15.1/bfd/cache.c:251-293 | A lookup succeeds unless it was asked not to open, changes no file and no client-visible state, and puts a reopened stream back at where unless the caller is about to seek |
| CacheTransparency.ReopenAt | gdb-15.1/bfd/cache.c:751-821 | Reopening a BFD that the cache had closed succeeds, keeps the contents of every file (it never truncates a second time) and gives a stream at position 0 |
| CacheTransparency.SeekAt | gdb-15.1/bfd/bfdio.c:528-582 | A seek that is not lost does to client-visible state what the plain seek does, also when it is skipped as redundant |
| CacheTransparency.ReadAt | gdb-15.1/bfd/bfdio.c:324-374 | A read delivers the bytes the plain machine delivers, with the same clipping, and moves only its own position |
| CacheTransparency.WriteAt | gdb-15.1/bfd/bfdio.c:390-423 | A write changes the file as the plain machine does, gap included, and fails in the same cases |
| CacheTransparency.TellAt | gdb-15.1/bfd/bfdio.c:437-456 | The tell is where minus the element offset, and re-setting where from the stream changes nothing |
| CacheTransparency.OpenAt | gdb-15.1/bfd/cache.c:751-821 | The first open creates, truncates or fails as the plain machine does, by direction and by whether the file exists |
| CacheTransparency.AdoptAt | gdb-15.1/bfd/opncls.c:291-365 | bfd_fopen in any mode agrees with the plain machine in result, disk, direction and position, although the stream exists before the cache makes room for it; a mode that fits also leaves the rights with which the file would be opened again |
| CacheTransparency.UnfitAdopted | gdb-15.1/bfd/opncls.c:339-362 | After bfd_fopen in a mode such as w, a, a+ or rb+ and a close-all, the state is that of the plain machine but for the rights of this one file, which are now those of its direction |
| CacheTransparency.RewritesDiffer | gdb-15.1/bfd/cache.c:761-810 | And two such machines answer differently: writing, rewriting, asking for the size and reading tells the rights apart for every mode that does not fit |
| CacheTransparency.FlushAt | gdb-15.1/bfd/bfdio.c:470-480 | A flush is invisible to clients and opens nothing |
| CacheTransparency.FirstOpen | gdb-15.1/bfd/cache.c:761-810 | The first opening by direction empties an output file, touches no other, and fails exactly if a file to read is not there |
| CacheTransparency.FirstFopen | gdb-15.1/bfd/opncls.c:313-326 | bfd_fopen: r wants a file, w empties it, a leaves or creates it, and no other file is touched |
| CacheTransparency.CloseAt | gdb-15.1/bfd/cache.c:594-607 | Closing one BFD leaves every client-visible state alone |
| CacheTransparency.CloseAllTransparent | gdb-15.1/bfd/cache.c:653-674 | Closing every stream in the cache is invisible to clients |
| CacheTransparency.UncloseableAt | gdb-15.1/bfd/cache.c:694-731 | Pinning and unpinning succeed and are invisible to clients |
| CacheModel.LookupInv | gdb-15.1/bfd/cache.c:251-293 | A lookup keeps the ring exactly the open, unpinned BFDs, each once, with open_files the ring plus the open pinned ones; it succeeds exactly if a stream is there afterwards |
| CacheModel.OpenFileInv | gdb-15.1/bfd/cache.c:751-821 | Opening keeps that invariant, whether fopen succeeds or not |
| CacheModel.CloseOneInv | gdb-15.1/bfd/cache.c:188-217 | Evicting keeps that invariant |
| CacheModel.DeleteInv | gdb-15.1/bfd/cache.c:162-182 | Deleting a BFD on the ring keeps that invariant |
| CacheModel.RegisterInv | gdb-15.1/bfd/cache.c:556-569 | Putting a BFD with a stream on the ring, most recent first, keeps that invariant |
| CacheModel.ToFrontInv | gdb-15.1/bfd/cache.c:258-274 | Moving a BFD to the front keeps that invariant |
| CacheModel.WithoutAt | gdb-15.1/bfd/cache.c:147-157 | Removing an element of the ring leaves the others in their order |
| CacheModel.Victim | gdb-15.1/bfd/cache.c:193-206 | The BFD to evict is cacheable and every less recently used one is not; there is none exactly when no candidate is cacheable |
| CacheLru.RingByUse | gdb-15.1/bfd/cache.c:265-274 | After any run, each BFD on the ring was last looked up, opened or unpinned by a later operation than those behind it; BFDs the run did not use keep their old order behind all others |
| CacheLru.EvictsIdlest | gdb-15.1/bfd/cache.c:188-217 | So after any run close_one closes, of the cacheable BFDs on the ring, the one whose last use is oldest, keeps its position and changes nothing else; with none it does nothing |
| CacheLru.ClosesOldest | gdb-15.1/bfd/cache.c:193-216 | The same for any clock that orders the ring |
| CacheLru.StepTimely | gdb-15.1/bfd/cache.c:251-293 | Every operation keeps the ring in the order of last use, where which operation uses which BFD is told from the state before it |
| CacheLru.LookupTimely | gdb-15.1/bfd/cache.c:251-293 | A lookup that finds or opens a stream counts as the most recent use of it |
| OpenBound.RunBound | gdb-15.1/bfd/cache.c:187-217 | Over any run, open_files never exceeds the largest of its start value, the limit and P + 1, where P is the largest number of BFDs that were open and either not cacheable or pinned at any one time so far |
| OpenBound.LimitHolds | gdb-15.1/bfd/cache.c:555-569 | If no open BFD is ever non-cacheable or pinned and the run starts within the limit, open_files stays within it |
| OpenBound.StepBound | gdb-15.1/bfd/cache.c:750-821 | One operation leaves at most max(open_files, limit, P + 1) open |
| OpenBound.NoVictim | gdb-15.1/bfd/cache.c:193-209 | When close_one finds nobody to close, all open BFDs are non-cacheable or pinned |
| OpenBound.MakeRoomBound | gdb-15.1/bfd/cache.c:558-562 | Making room frees a place unless the cache has one or nobody can be closed |
| OpenBound.OpenFileBound | gdb-15.1/bfd/cache.c:750-821 | The bound for a reopened file |
| OpenBound.CloseAllBound | gdb-15.1/bfd/cache.c:652-674 | Closing all never raises the count |
| OpenBound.FromTheStart | gdb-15.1/bfd/cache.c:127-821 | From a state in which nothing has been opened, for every run: transparency if and only if nothing is lost, the rule for update streams if and only if no seek fails on a stream for update that transferred, and never more open files than max(limit, P + 1) |
| UpdateRule.RuleExactly | gdb-15.1/bfd/bfd-in2.h:2120-2132 | For every run: after no part of it does input directly follow output, without flush or positioning, on a stream opened for reading and writing, nor output input, without positioning or an end of file met, if and only if no seek of the run fails on such a stream that has written, or read without meeting the end, since it was last positioned |
| UpdateRule.RunNeverMisuses | gdb-15.1/bfd/bfdio.c:361-371 | In a run without such a failing seek the rule of fopen for update streams is kept, although redundant seeks are skipped |
| UpdateRule.DirtyFailureMisuses | gdb-15.1/bfd/bfdio.c:556-570 | After such a failing seek the opposite transfer, of a byte or more, breaks the rule |
| UpdateRule.StepRule | gdb-15.1/bfd/bfdio.c:324-582 | One operation keeps "last_io tells the truth about the last transfer" for every BFD and misuses no stream |
| UpdateRule.ReadRule | gdb-15.1/bfd/bfdio.c:361-371 | A read after a write positions the stream first, and no read breaks the rule |
| UpdateRule.WriteRule | gdb-15.1/bfd/bfdio.c:404-414 | The same for writes after reads |
| UpdateRule.SeekRule | gdb-15.1/bfd/bfdio.c:552-580 | A seek keeps the rule, skipped or not |
| UpdateRule.RealSeekRule | gdb-15.1/bfd/bfdio.c:559-580 | A seek that is carried out succeeds exactly for a non-negative target on an open stream, and then the stream counts as positioned; a failed one leaves an open stream as it was |
| UpdateRule.TurnAroundRule | gdb-15.1/bfd/bfdio.c:361-366 | After the forced SEEK_CUR the last transfer is no longer of the opposite kind |
| FileCache.Cache.Perform | gdb-15.1/bfd/cache.c:127-821 | On the real objects with their lru_next and lru_prev pointers, any client operation changes the abstract state exactly as the specification step does, gives its result, and keeps the pointers one ring over exactly the cached BFDs |
| FileCache.Cache.PerformAll | gdb-15.1/bfd/bfdio.c:324-582 | Any run of client operations on the objects ends in the state and gives the results of the run of the specification, and, when nothing is lost, those of the machine that never closes a file |
| FileCache.Cache.FlushStream | gdb-15.1/bfd/cache.c:455-474 | fflush on the open stream |
| FileCache.Cache.PerformIo | gdb-15.1/bfd/bfdio.c:324-582 | The same for reads, writes, seeks, tells, stats and flushes, through any chain of containing archives |
| FileCache.Cache.PerformCache | gdb-15.1/bfd/cache.c:556-821 | The same for opening, closing, close-all, pinning and marking |
| FileCache.Cache.Insert | gdb-15.1/bfd/cache.c:127-142 | insert puts the BFD at the front of the ring and leaves every other field alone |
| FileCache.Cache.Snip | gdb-15.1/bfd/cache.c:147-157 | snip takes the BFD out of the ring and moves bfd_last_cache if it pointed there |
| FileCache.Cache.CacheDelete | gdb-15.1/bfd/cache.c:162-182 | The stream is closed, the BFD leaves the ring, open_files drops by one, where stays |
| FileCache.Cache.FindVictim | gdb-15.1/bfd/cache.c:193-206 | The walk from the least recently used end stops at the victim the specification names |
| FileCache.Cache.CloseOne | gdb-15.1/bfd/cache.c:188-217 | The victim is closed and its position kept in where; without a victim nothing happens |
| FileCache.Cache.MakeRoom | gdb-15.1/bfd/cache.c:558-562 | One BFD is closed when the limit is reached |
| FileCache.Cache.CacheInit | gdb-15.1/bfd/cache.c:556-569 | Makes room, then puts the BFD at the front and counts it |
| FileCache.Cache.OpenFile | gdb-15.1/bfd/cache.c:751-821 | The fopen by direction and opened_once, and the registration; the flag says whether a stream came back |
| FileCache.Cache.OpenByDirection | gdb-15.1/bfd/cache.c:766-810 | Which mode a file is opened with, creation and truncation only the first time |
| FileCache.Cache.LookupWorker | gdb-15.1/bfd/cache.c:251-293 | Finds the stream, moves it to the front, or reopens and repositions as the flags say |
| FileCache.Cache.Reopen | gdb-15.1/bfd/cache.c:276-292 | Reopening followed by the seek to where |
| FileCache.Cache.Lookup | gdb-15.1/bfd/cache.c:219-231 | The short cut for the front of the ring agrees with the worker |
| FileCache.Cache.CacheTell | gdb-15.1/bfd/cache.c:296-311 | The stream position, or where if the file is closed |
| FileCache.Cache.CacheSeek | gdb-15.1/bfd/cache.c:314-328 | Seeks without repositioning first, except for SEEK_CUR |
| FileCache.Cache.ReadChunks | gdb-15.1/bfd/cache.c:373-419 | Reading in pieces of at most 8 MB delivers what one read would deliver |
| FileCache.Cache.CacheRead | gdb-15.1/bfd/cache.c:373-419 | The cached read as the specification has it |
| FileCache.Cache.CacheWrite | gdb-15.1/bfd/cache.c:422-445 | The cached write as the specification has it |
| FileCache.Cache.CacheClose | gdb-15.1/bfd/cache.c:594-607 | Closes a stream if there is one |
| FileCache.Cache.CacheCloseAll | gdb-15.1/bfd/cache.c:653-674 | The loop ends, the ring is empty, and positions are kept |
| FileCache.Cache.SetUncloseable | gdb-15.1/bfd/cache.c:694-731 | Pinning opens the file if need be and takes it off the ring; unpinning puts it back in front |
| FileCache.Cache.SetCacheable | gdb-15.1/bfd/bfd-in2.h:2401-2405 | Only the mark changes |
| FileCache.Cache.Climb | gdb-15.1/bfd/bfdio.c:329-336 | The climb to the BFD that holds the stream adds up the origins of the elements |
| FileCache.Cache.BfdSeek | gdb-15.1/bfd/bfdio.c:528-582 | bfd_seek with its skip of redundant seeks |
| FileCache.Cache.BfdRead | gdb-15.1/bfd/bfdio.c:324-374 | bfd_read with clipping and turn-around |
| FileCache.Cache.BfdWrite | gdb-15.1/bfd/bfdio.c:390-423 | bfd_write with turn-around |
| FileCache.Cache.BfdTell | gdb-15.1/bfd/bfdio.c:437-456 | bfd_tell |
| FileCache.Cache.BfdStat | gdb-15.1/bfd/bfdio.c:495-513 | The size bfd_stat reports |
| FileCache.Cache.BfdFlush | gdb-15.1/bfd/bfdio.c:470-480 | bfd_flush does not open a closed file |
| FileCache.Cache.BfdFopen | gdb-15.1/bfd/opncls.c:291-365 | bfd_fopen by name: the stream is there before the cache makes room |
| FileCache.Cache.TurnAround | gdb-15.1/bfd/bfdio.c:361-366 | The forced seek when the direction of transfer changes |
| ElementWindow.ElementContents | gdb-15.1/bfd/bfdio.c:324-374 | Rewinding an element and reading at least its size gives exactly the bytes of its window, in any cache state that runs can reach |
| ElementWindow.ReadStaysInside | gdb-15.1/bfd/bfdio.c:341-352 | No read of an element returns a byte outside its window, wherever the stream stands |
| ElementWindow.NestedExactly | gdb-15.1/bfd/bfdio.c:331-352 | For an element any number of archives deep: no seek and read of it through the cache gives a byte from outside one of the elements around it, if and only if it ends no later than any of them: only the innermost window is enforced |
| AoutHeaders.InputTransforms | gdb-15.1/bfd/aoutx.h:5128-5232 | For any balanced symbol table with stabs kept and no indirect or warning types, the flat scans with their nesting counters write out the recursively transformed tree: first groups per name and total kept, later ones turned into N_EXCL without the symbols directly inside and their N_EINCL, nested groups treated in turn |
| AoutDedup.DedupExactly | gdb-15.1/bfd/aoutx.h:5128-5232 | The same said of the flat table alone: a header is known by its name and by the sum, without file numbers, of the stab strings directly inside it; every N_BINCL becomes N_BINCL at its first occurrence in this input or before, else N_EXCL, with that sum for value; what is directly inside no group or a first one is copied, its N_EINCL included; everything else goes; all in order |
| AoutDedup.SecondExcluded | gdb-15.1/bfd/aoutx.h:5184-5231 | Of two groups of the same name whose direct stabs differ in file numbers only, the second becomes an N_EXCL with the total of the first |
| AoutDedup.StabSumIs | gdb-15.1/bfd/aoutx.h:5160-5172 | The total of a stab string is the sum, as signed characters modulo 2^64, of those that no run of digits joins to an open parenthesis before them |
| AoutDedup.NumberFree | gdb-15.1/bfd/aoutx.h:5164-5170 | Replacing the digits after an open parenthesis by any others does not change the total |
| AoutDedup.TreeImages | gdb-15.1/bfd/aoutx.h:4854-5260 | The transformed tree, read from left to right, is the images of the positions |
| AoutDedup.KeyIs | gdb-15.1/bfd/aoutx.h:5141-5174 | The two descriptions of what a header is known by agree |
| AoutHeaders.TransformPromises | gdb-15.1/bfd/aoutx.h:5176-5232 | The transformed table is balanced; every group that is kept is the first with its name and total; what was seen afterwards is what was seen before and what was kept; and if the input had no N_EXCL, every group of it is kept or excluded |
| AoutHeaders.BalancedIsForest | gdb-15.1/bfd/aoutx.h:5142-5174 | Every balanced sequence of symbols is the flattening of a tree of groups, so the tree results are about all balanced tables |
| AoutHeaders.TreeTransforms | gdb-15.1/bfd/aoutx.h:5128-5232 | The same from any position of a table on, within kept or dropped groups |
| AoutHeaders.PromisedFirst | gdb-15.1/bfd/aoutx.h:5187-5199 | A group seen for the first time keeps the promise of the whole |
| AoutHeaders.PromisedAgain | gdb-15.1/bfd/aoutx.h:5200-5231 | So does one replaced by N_EXCL, whose nested groups move up |
| AoutGroups.FlatIsTree | gdb-15.1/bfd/aoutx.h:4854-5260 | The loop over a stretch of the table that is a tree leaves the state that recursion over the tree leaves, the pre-set -1 marks included |
| AoutGroups.SumDirect | gdb-15.1/bfd/aoutx.h:5141-5174 | The first scan adds up the symbols directly in the group and nothing nested |
| AoutGroups.SumNested | gdb-15.1/bfd/aoutx.h:5148-5156 | Inside a nested group it adds nothing and ends at the same depth |
| AoutGroups.MarkDirect | gdb-15.1/bfd/aoutx.h:5209-5230 | The second scan marks the symbols directly in the group and nothing nested |
| AoutGroups.MarkNested | gdb-15.1/bfd/aoutx.h:5217-5229 | Inside a nested group it marks nothing |
| AoutGroups.StepHead | gdb-15.1/bfd/aoutx.h:5128-5232 | At an N_BINCL the loop body does what the head of the group calls for |
| AoutGroups.GroupTail | gdb-15.1/bfd/aoutx.h:4864-4874 | The N_EINCL of an excluded group is passed over, that of a kept one copied, and the rest is untouched by what went before |
| AoutGroups.StepLeaf | gdb-15.1/bfd/aoutx.h:4854-5260 | An ordinary symbol changes only its own map entry and hash slot |
| AoutGroups.EndStep | gdb-15.1/bfd/aoutx.h:5217-5223 | The end of a group after its body |
| AoutSlots.LinkNumbered | gdb-15.1/bfd/aoutx.h:4799-5278 | Over any sequence of linked inputs, forced symbols and remaining symbols: the file position is base plus entry size times the output count, every non-negative indx is the slot that holds that entry, and no hash entry has two slots |
| AoutSlots.InputNumbered | gdb-15.1/bfd/aoutx.h:4854-5278 | After one input every non-negative symbol_map value is the slot holding that symbol, at most sym_count + 1 buffer entries are used, and every new slot reads back from the file as the symbol it is for |
| AoutSlots.ForceNumbered | gdb-15.1/bfd/aoutx.h:4442-4459 | Forcing out a stripped symbol keeps the numbering, and a symbol that can be written then has a slot |
| AoutSlots.OtherNumbered | gdb-15.1/bfd/aoutx.h:3599-3716 | Writing a remaining symbol keeps the numbering |
| AoutSlots.StepsSlots | gdb-15.1/bfd/aoutx.h:4854-5260 | The main loop keeps slots, map and buffer in step and uses at most one buffer entry for each symbol |
| AoutSlots.GlobalSlots | gdb-15.1/bfd/aoutx.h:4896-5126 | A symbol with a hash entry is mapped to a slot that holds its entry, or to none |
| AoutSlots.LocalSlots | gdb-15.1/bfd/aoutx.h:5011-5126 | A local symbol is mapped to its own slot, or to none |
| AoutModel.StepOk | gdb-15.1/bfd/aoutx.h:4854-5260 | One turn of the loop keeps the tables well-formed and no entry changes what it is |
| AoutValues.PlacedSymbol | gdb-15.1/bfd/aoutx.h:5089-5093 | In the file after an input, the slot of a copied symbol of text, data, bss or no section holds its type and, modulo 2^64, its value plus what the final link computes for a reloc against that section |
| AoutValues.SetSymbol | gdb-15.1/bfd/aoutx.h:5014-5034 | The same for local symbols of sets |
| AoutValues.ResolvedSymbol | gdb-15.1/bfd/aoutx.h:5035-5078 | The slot of an undefined, common or indirect symbol that resolves to a definition holds the value a reloc against it gets, and a type that is read as the section of that definition if and only if it is not a weak one in data or no section while the symbol is external |
| AoutValues.UndefinedSymbol | gdb-15.1/bfd/aoutx.h:5079-5087 | Without a definition a common symbol has its size, a weak one type N_WEAKU, and others value 0 |
| AoutValues.StabSymbol | gdb-15.1/bfd/aoutx.h:4995-4999 | A debugging symbol of no section is copied with its type and value |
| AoutValues.PassedSymbol | gdb-15.1/bfd/aoutx.h:4881-4887 | The target of an indirect or warning symbol is written as it was |
| AoutValues.OtherReads | gdb-15.1/bfd/aoutx.h:3642-3713 | A symbol written last or for a reloc: its slot holds its name, the value a reloc against it gets, or the size if common, and an external type that is read as its section under the same condition |
| AoutValues.FileSymbolReads | gdb-15.1/bfd/aoutx.h:4822-4845 | The symbol for the file stands at the start of its text |
| AoutValues.TurnDecides | gdb-15.1/bfd/aoutx.h:4929-5126 | A symbol that is looked at is copied if and only if the options want it, it is not a local one to discard, and its hash entry was not written before |
| AoutValues.StripAllWritesNothing | gdb-15.1/bfd/aoutx.h:4955-4964 | With everything stripped an input writes no symbol |
| AoutLinker.Linker.WriteSymbols | gdb-15.1/bfd/aoutx.h:4799-5278 | The imperative pass over arrays computes the link state, the symbol map and the resolved hashes of the specification |
| AoutLinker.Linker.StepSymbol | gdb-15.1/bfd/aoutx.h:4854-5260 | One turn of the loop |
| AoutLinker.Linker.StepGlobal | gdb-15.1/bfd/aoutx.h:4896-5126 | The branch for a symbol with a hash entry: resolve, skip if written, strip, value, mark |
| AoutLinker.Linker.StepLocal | gdb-15.1/bfd/aoutx.h:4940-5126 | The branch for a local symbol: strip, value, discard |
| AoutLinker.Linker.CopyOut | gdb-15.1/bfd/aoutx.h:5128-5259 | The end of the loop body, header groups included |
| AoutLinker.Linker.Emit | gdb-15.1/bfd/aoutx.h:5235-5259 | One more symbol in the buffer, in the map and in the count |
| AoutLinker.Linker.ResolveLink | gdb-15.1/bfd/aoutx.h:4916-4927 | The loop over indirect and warning links ends at the entry meant |
| AoutLinker.Linker.StabTotal | gdb-15.1/bfd/aoutx.h:5160-5172 | The sum over one string without file numbers |
| AoutLinker.Linker.IncludeTotal | gdb-15.1/bfd/aoutx.h:5141-5174 | The first scan |
| AoutLinker.Linker.MarkInclude | gdb-15.1/bfd/aoutx.h:5209-5230 | The second scan, in place on the map |
| AoutLinker.Linker.WriteBuffer | gdb-15.1/bfd/aoutx.h:5262-5275 | The buffer is written at symoff, which moves by its length |
| AoutLinker.Linker.WriteOther | gdb-15.1/bfd/aoutx.h:3599-3716 | aout_link_write_other_symbol |
| AoutLinker.Linker.ForceOut | gdb-15.1/bfd/aoutx.h:4442-4459 | Sets -2, clears written, writes the symbol and hands back its index |
| AoutRelocs.PartialThenFinal | gdb-15.1/bfd/aoutx.h:4381-4663 | For an extended reloc that is not base-relative, a partial link followed by a final link installs the same word at the same address as a direct final link if and only if: the reloc is not pc-relative; or, against a symbol the partial link resolved, the vma of the containing section (with pcrel_offset, of its output section) is 0 modulo the word; or, otherwise, it is against a symbol exactly when pcrel_offset is set, or both vmas agree modulo the word |
| AoutRelocs.AddressComposes | gdb-15.1/bfd/aoutx.h:4527-4530 | The address of the place patched is the same both ways |
| AoutRelocs.Difference | gdb-15.1/bfd/aoutx.h:4512-4525 | What is left between the two ways is the lag in the addend, corrected by the move of the source when the location is part of the addend |
| AoutRelocs.PartialAt | gdb-15.1/bfd/aoutx.h:4341-4531 | Record i of the result is record i rewritten in a state in which no symbol has changed its meaning |
| AoutRelocs.RelocateSection | gdb-15.1/bfd/aoutx.h:4303-4531 | The records are rewritten in place as the specification says, forced symbols included; a failure to write stops the loop |
| AoutRelocs.RelocateOne | gdb-15.1/bfd/aoutx.h:4381-4531 | The body of the loop for a partial link |
| AoutRelocs.KeptSlot | gdb-15.1/bfd/aoutx.h:4437-4460 | The symbol number of a rewritten reloc is the slot of the symbol it was against, also when the symbol had been stripped and is forced out now |
| ArOpen.ArchiveRoundTrip | gdb-15.1/bfd/archive.c:2142-2305 | Writing an archive, opening it and walking it gives back every member, in order, with its name and exactly its bytes, for every file except those of the next row |
| ArOpen.OpensExactly | gdb-15.1/bfd/archive.c:895-955 | Opening a written archive finds the map and the name table that were written and the first member, if and only if it does not happen that there is no table and the first member has a name that is read as a table or, without a map, as a map |
| ArOpen.SymbolFindsMember | gdb-15.1/bfd/archive.c:674-804 | Each symbol of the map that is read leads to the header of a member that defines it, with its name and bytes |
| ArOpen.SymbolListed | gdb-15.1/bfd/archive.c:2310-2471 | And every symbol that a member exports is in the map read back, which has as many entries as there are such symbols, at its place in their order, and leads to that member with its name and bytes |
| ArOpen.MapStage | gdb-15.1/bfd/archive.c:1199-1250 | Reading the map of a written archive gives the recorded list of names and offsets and the position behind it |
| ArOpen.NoMapStage | gdb-15.1/bfd/archive.c:1199-1250 | Without a map none is found, unless the first member looks like one |
| ArOpen.MapFound | gdb-15.1/bfd/archive.c:1199-1250 | A map of any of the three formats is recognised and reads back |
| ArOpen.NamesFound | gdb-15.1/bfd/archive.c:1265-1352 | The name table is found behind the map and repaired |
| ArRoundTrip.WriteThenWalk | gdb-15.1/bfd/archive.c:857-885 | Repeated next-member calls from the first member return exactly the written members in order, with name and contents |
| ArRoundTrip.WalkFrom | gdb-15.1/bfd/archive.c:857-885 | The same from any member on |
| ArRoundTrip.MemberFound | gdb-15.1/bfd/archive.c:674-804 | Reading at a member finds it, and its successor starts where the writer put the next one |
| ArRoundTrip.MemberReads | gdb-15.1/bfd/archive.c:504-643 | A written header gives back name, size and start of the bytes, in all three naming styles |
| ArRoundTrip.ShortReads | gdb-15.1/bfd/archive.c:589-614 | A name kept in the header |
| ArRoundTrip.TabledReads | gdb-15.1/bfd/archive.c:545-556 | A name in the table |
| ArRoundTrip.BehindReads | gdb-15.1/bfd/archive.c:557-588 | A name behind the header, in the BSD 4.4 style |
| ArWalk.WalkAdvances | gdb-15.1/bfd/archive.c:857-885 | For every byte content, each member found starts at least one header behind the one before, so there are no more of them than headers fit into the file |
| ArWalk.Reader.OpenAll | gdb-15.1/bfd/archive.c:857-885 | Calling next until it fails ends, for every byte content, and gives the members of the walk |
| ArWalk.Reader.OpenNext | gdb-15.1/bfd/archive.c:857-885 | The next member, or none when the size wraps around or the end is reached |
| ArWalk.Reader.GetEltAt | gdb-15.1/bfd/archive.c:674-804 | An element from the cache is what a fresh read would give, and the cache only grows |
| ArFile.SymbolPointsAtMember | gdb-15.1/bfd/archive.c:2243-2276 | The offset recorded for a symbol is where the header of its member is written if and only if a BSD map was chosen, or no member before has a name behind its header |
| ArFile.WriteArchive | gdb-15.1/bfd/archive.c:2142-2276 | Succeeds exactly if every size fits its field, and then writes the archive byte for byte as specified |
| ArFile.MemberAt | gdb-15.1/bfd/archive.c:2243-2276 | Member k stands where the bytes before it end |
| ArFile.WriteMembers | gdb-15.1/bfd/archive.c:2243-2276 | The loop over the members |
| ArFile.WriteMember | gdb-15.1/bfd/archive.c:2247-2275 | Header, name, contents and padding newline of one member; fails exactly if the size does not fit |
| ArFile.CopyContent | gdb-15.1/bfd/archive.c:2257-2269 | The copy in blocks of 8 MB writes the contents |
| ArFile.WriteMap | gdb-15.1/bfd/archive.c:2310-2471 | The map is written in front of the members, and leading members named like a map are dropped |
| ArFile.CountDropped | gdb-15.1/bfd/archive.c:2341-2344 | How many those are |
| ArFile.WriteTable | gdb-15.1/bfd/archive.c:2213-2233 | The name table with its header, padded to even; fails exactly if the size does not fit |
| ArFile.FreshFields | gdb-15.1/bfd/archive.c:2159-2192 | A fresh header for every member; fails exactly if a size does not fit |
| ArFile.BuildNames | gdb-15.1/bfd/archive.c:2194-2196 | The naming style of the target decides name fields and table |
| ArFile.ExtendFields | gdb-15.1/bfd/archive.c:1760-1798 | The BSD 4.4 style: which names go behind the header, and the field for them |
| ArFile.FrontEven | gdb-15.1/bfd/archive.c:2198-2233 | Map and table take the room the writer of the map reckoned with, and members start at an even position |
| ArFile.RecordedExactly | gdb-15.1/bfd/archive.c:2474-2632 | The recorded offset against the position reckoned from sizes |
| ArMapWrite.MapExactly | gdb-15.1/bfd/archive.c:2474-2850 | In all three formats, thin archives included: the recorded offset is the real one if and only if, for the BSD map, the archive is not thin or no member before has bytes, and for the other two no member before has a name behind its header |
| ArMapWrite.Output.WriteBsd | gdb-15.1/bfd/archive.c:2474-2632 | Writes the BSD map, or the 64-bit one when an offset does not fit; the error of the second pass never happens |
| ArMapWrite.Output.WriteCoff | gdb-15.1/bfd/archive.c:2711-2850 | The same for the COFF map |
| ArMapWrite.Output.WriteWide | gdb-15.1/bfd/archive64.c:160-264 | The 64-bit map |
| ArMapWrite.BsdFits | gdb-15.1/bfd/archive.c:2495-2527 | The first pass says yes exactly if all offsets fit in 32 bits |
| ArMapWrite.CoffFits | gdb-15.1/bfd/archive.c:2730-2766 | The same for the COFF map |
| ArMapWrite.NextBsd | gdb-15.1/bfd/archive.c:2505-2514 | The inner loop reaches the next member with the reckoned position |
| ArMap.BsdExactly | gdb-15.1/bfd/archive.c:2503-2515 | The BSD reckoning never falls short, keeps even positions, and is exact if and only if the archive is not thin or no member before has bytes |
| ArMap.CoffExactly | gdb-15.1/bfd/archive.c:2741-2766 | The COFF and 64-bit reckonings agree, never exceed the real position, and are exact if and only if no member before has a name behind its header |
| ArMap.PositionsGrow | gdb-15.1/bfd/archive.c:2719-2766 | Reckoned positions never go down |
| ArMap.Collect | gdb-15.1/bfd/archive.c:2346-2451 | The map lists the wanted symbols member by member, with the total of their names |
| ArMap.MapListed | gdb-15.1/bfd/archive.c:2346-2451 | Every symbol of every member that is global, weak, indirect, unique or common, and not undefined, has an entry, behind exactly those of the members before and those before it in its own; and there are no others |
| ArMap.PutDigits | gdb-15.1/bfd/archive.c:2788-2789 | Which byte of a number goes where, for both byte orders |
| ArMap.CollectedOk | gdb-15.1/bfd/archive.c:2346-2451 | The list is in member order and refers to members only |
| ArMap.PutGet | gdb-15.1/bfd/archive.c:2604-2605 | A number put in a field of any width and byte order is read back |
| ArMapRead.BsdRoundTrip | gdb-15.1/bfd/archive.c:993-1066 | Slurping a BSD map gives the (name, offset) list that was written, in order, padding unseen, in either byte order |
| ArMapRead.WideRoundTrip | gdb-15.1/bfd/archive64.c:38-148 | The same for the COFF and 64-bit maps, whatever the padding |
| ArMapRead.ReadBsd | gdb-15.1/bfd/archive.c:993-1066 | The BSD reader on any bytes computes the specified list or fails as specified |
| ArMapRead.ReadWide | gdb-15.1/bfd/archive.c:1079-1172 | The same for the COFF and 64-bit readers |
| ArMapRead.StringAt | gdb-15.1/bfd/archive.c:2436-2441 | A name stands in the strings at the index the collector gave it, followed by a NUL |
| ArNames.TableRoundTrip | gdb-15.1/bfd/archive.c:1265-1352 | After the repair of the table the stored offset of a long name reads as that name if and only if the name has no newline and no backslash |
| ArNames.SizingIsFilling | gdb-15.1/bfd/archive.c:1586-1753 | The filling pass never writes more than the sizing pass counted, and exactly as much if and only if no two neighbouring tabled members share a file name pointer |
| ArNames.TraditionalNoTable | gdb-15.1/bfd/archive.c:1639-1671 | In traditional format both passes give an empty table |
| ArNames.ConstructNames | gdb-15.1/bfd/archive.c:1574-1754 | Both passes together: the table and the name field of every member |
| ArNames.SizePass | gdb-15.1/bfd/archive.c:1586-1671 | The sizing pass, which also puts short names in plain form |
| ArNames.FillPass | gdb-15.1/bfd/archive.c:1686-1751 | The filling pass |
| ArNames.EntryOf | gdb-15.1/bfd/archive.c:1726-1738 | The entry of a tabled member stands at its offset, at the start of a line |
| ArNames.EntryReads | gdb-15.1/bfd/archive.c:1324-1342 | Reading any entry at a line start of a repaired table |
| ArNames.Repair | gdb-15.1/bfd/archive.c:1322-1342 | The repair in place: newlines become NULs, with the slash before them, and backslashes become slashes |
| ArNames.LongFieldReads | gdb-15.1/bfd/archive.c:452-483 | The name field of a tabled member is recognised as extended and reads as its offset |
| ArNames.ShortFormReads | gdb-15.1/bfd/archive.c:589-614 | A name in the header reads back whole if and only if no space in it can be taken for its end |
| ArNames.ShortNotExtended | gdb-15.1/bfd/archive.c:545-558 | Such a name is not taken for an extended one |
| ArNames.FreshFieldForm | gdb-15.1/bfd/archive.c:2036-2070 | bfd_dont_truncate_arname leaves a field in plain form |
| ArNames.ShortFieldForm | gdb-15.1/bfd/archive.c:1653-1667 | So does the sizing pass, names cut off in traditional format included |
| ArHeader.SizeFits | gdb-15.1/bfd/archive.c:221-241 | Writing a size fails exactly from ten thousand million on |
| ArHeader.SizeReads | gdb-15.1/bfd/archive.c:534-543 | A size that was written reads back |
| ArHeader.ReadHdr | gdb-15.1/bfd/archive.c:504-643 | For any bytes: if a header is read, the bytes of the element start behind it and its name, inside the file, and its size is a 64-bit number |
| Ascii.ScanDecimal | gdb-15.1/bfd/archive.c:452-483 | A decimal number reads back, whatever non-digit follows |
| Ascii.ValueDecimal | gdb-15.1/bfd/archive.c:221-241 | The digits of a number stand for it |
| FormatScan.ScanExactly | gdb-15.1/bfd/bfd.c:1290-1487 | The first pass returns instead of aborting if and only if the format parses, uses at most MAX_ARGS arguments, and uses every index below their number |
| FormatScan.ScanSound | gdb-15.1/bfd/bfd.c:1290-1487 | If it returns, the references of the format (conversions and stars) hit every index below arg_count exactly once, and each entry was filled with the type its one use wants |
| FormatPieces.PrintsPieces | gdb-15.1/bfd/bfd.c:1046-1285 | A format that is printed falls into pieces in order, one call for each: text up to the next percent sign verbatim, %% as a percent sign, and a specifier, which ends at the first character that modifies nothing, as a section for pA, a file for pB, and else as the argument its number or the count of stars and conversions before says, with its own characters, stars replaced by numbers |
| FormatPieces.SpecIs | gdb-15.1/bfd/bfd.c:1081-1166 | Where a specifier ends, what it is for, how far it counts and what it is handed on as, from its characters |
| FormatPieces.UseTypes | gdb-15.1/bfd/bfd.c:1397-1450 | The type noted and read for a conversion is the C type its letter and its h, l and L ask for |
| FormatPrint.PrintSound | gdb-15.1/bfd/bfd.c:1046-1285 | After a successful scan the second pass walks the same conversions and reads every argument exactly once and only through the field that was filled; it aborts only for a null section or BFD, and without such it writes past its buffer if and only if some specifier, its stars replaced, has 128 characters or more |
| FormatScan.Pigeonhole | gdb-15.1/bfd/bfd.c:1459-1484 | n numbers among which all below n occur are those numbers, each once |
| FormatScan.ScanNotes | gdb-15.1/bfd/bfd.c:1298-1457 | When the first pass gets to fetching, it has noted exactly the uses of the format |
| FormatScan.ScanAtSpec | gdb-15.1/bfd/bfd.c:1309-1456 | One specifier that is accepted parses, and its uses are what was noted |
| FormatScan.FetchFilled | gdb-15.1/bfd/bfd.c:1459-1484 | The fetch loop ends without abort only over filled entries |
| FormatScan.DoprntScan | gdb-15.1/bfd/bfd.c:1290-1487 | The loops over the format compute the specified result |
| FormatScan.ScanSpecifier | gdb-15.1/bfd/bfd.c:1309-1456 | One specifier: next position, count and types, or the abort |
| FormatScan.FetchArgs | gdb-15.1/bfd/bfd.c:1459-1484 | The last loop |
| FormatPrint.Doprnt | gdb-15.1/bfd/bfd.c:1046-1285 | The second pass makes the specified calls of print with the specified argument reads, or ends as the specification does: in one of its two aborts, or undefined |
| FormatPrint.PrintSpecifier | gdb-15.1/bfd/bfd.c:1074-1278 | One specifier: what is printed, what is read and where it ends, or which abort it ends in |
| FormatPrint.BuildSpecifier | gdb-15.1/bfd/bfd.c:1081-1166 | The 128-character buffer is filled with the specifier, stars replaced by the absolute value of their argument and nothing else changed, if and only if it parses, its stars can be read as ints and it fits with its terminator |
| FormatPrint.Put | gdb-15.1/bfd/bfd.c:1104-1115 | Characters go where the last ones ended, or are refused when no room for the terminator would be left |
| FormatPrint.SpecProvided | gdb-15.1/bfd/bfd.c:1168-1276 | With its arguments provided a specifier that fits reads exactly its references |
| MemoryFile.ReadsBack | gdb-15.1/bfd/bfdio.c:757-863 | After any run every byte inside the file is the last one written there, or what was there at the start, or zero in a gap |
| MemoryFile.RunInBounds | gdb-15.1/bfd/bfdio.c:812-863 | The position never passes the size, and the file never shrinks |
| MemoryFile.NeverWritten | gdb-15.1/bfd/bfdio.c:777-803 | Nothing was written where the file does not reach |
| MemoryFile.RunReadsBack | gdb-15.1/bfd/bfdio.c:757-774 | What any read of a run gives is, byte for byte, what was last written where it stood, as far as the file reaches |
| MemoryFile.File.Perform | gdb-15.1/bfd/bfdio.c:757-863 | On the buffer with its rounding to 128 bytes, any run gives the results of the run on the view of plain bytes and ends as it does, and bytes between size and rounding stay zero |
| MemoryFile.File.MemoryRead | gdb-15.1/bfd/bfdio.c:757-774 | The bytes from where on, as far as there are any |
| MemoryFile.File.MemoryWrite | gdb-15.1/bfd/bfdio.c:777-803 | Overwrites and extends, whatever realloc left in the new memory, also in a file opened to be read as long as its buffer has room |
| MemoryFile.File.MemorySeek | gdb-15.1/bfd/bfdio.c:812-863 | Seeking past the end grows a writable file by zeros and fails on a read-only one |
| MemoryFile.File.BfdSeek | gdb-15.1/bfd/bfdio.c:528-582 | With the skip of redundant seeks |
| MemoryFile.File.BfdRead | gdb-15.1/bfd/bfdio.c:324-374 | With the move of where |
| MemoryFile.File.BfdWrite | gdb-15.1/bfd/bfdio.c:390-423 | With the move of where |
| SectionList.Sections.RemovedFromList | gdb-15.1/bfd/bfd-in2.h:2557-2560 | Whatever has been done to the list before, the test on possibly stale links is true exactly for sections not in it |
| SectionList.Sections.Remove | gdb-15.1/bfd/bfd-in2.h:2482-2494 | The section leaves the sequence that both link directions describe; its own links stay stale |
| SectionList.Sections.Append | gdb-15.1/bfd/bfd-in2.h:2497-2511 | The section becomes the last, whatever its stale links say |
| SectionList.Sections.Prepend | gdb-15.1/bfd/bfd-in2.h:2514-2528 | The section becomes the first |
| SectionList.Sections.InsertAfter | gdb-15.1/bfd/bfd-in2.h:2531-2541 | The section comes right after the given one |
| SectionList.Sections.InsertBefore | gdb-15.1/bfd/bfd-in2.h:2544-2554 | The section comes right before the given one |
| SectionList.Sections.PutIn | gdb-15.1/bfd/bfd-in2.h:2497-2554 | Relinking around a section put in keeps the invariant, stale links of all other sections included |
| SectionList.Sections.TakeOut | gdb-15.1/bfd/bfd-in2.h:2482-2494 | Relinking around a section taken out keeps it |
| ArcGotModel.GotAllocation | gdb-15.1/bfd/arc-got.h:80-558 | Over any sequence of successful requests, patches and relocs: at most one entry for each symbol and type, slots disjoint and tiling what the table grew by, patches inside their entry's slots and at most one for each, each value the address or offset of its symbol and still there at the end, all other words zero, dynamic relocs of the kinds their entries need, no two for one word, and no more of them than reserved |
| ArcGotModel.RunOk | gdb-15.1/bfd/arc-got.h:199-558 | Each operation of a run keeps all of that |
| ArcGotModel.RequestOk | gdb-15.1/bfd/arc-got.h:217-263 | A successful request keeps it, and the symbol then has an entry of the type |
| ArcGotModel.PatchOk | gdb-15.1/bfd/arc-got.h:337-452 | A patch keeps it |
| ArcGotModel.PatchWords | gdb-15.1/bfd/arc-got.h:337-452 | A patch overwrites no word patched for another entry |
| ArcGotModel.WordMeans | gdb-15.1/bfd/arc-got.h:353-432 | The word is the address of the symbol, or added to the start of the thread-local section its value, with the bias of the thread pointer for initial-exec entries |
| ArcGotModel.EmitMeans | gdb-15.1/bfd/arc-got.h:464-539 | Dynamic relocs are of the kinds and at the words that the type of their entry needs, and none of a thread-local entry is missing |
| ArcGotModel.EmitOk | gdb-15.1/bfd/arc-got.h:455-540 | Dynamic relocs keep it |
| ArcGotModel.SlotsDisjoint | gdb-15.1/bfd/arc-got.h:95-127 | Different entries have different slots inside what the table grew by |
| ArcGotModel.SlotsTile | gdb-15.1/bfd/arc-got.h:199-215 | Every byte the table grew by is in the slots of an entry |
| ArcGotModel.WordsOwned | gdb-15.1/bfd/arc-got.h:199-215 | A word belongs to one entry |
| ArcGot.Table.EntryForType | gdb-15.1/bfd/arc-got.h:80-92 | Finds, in the list of the symbol, the entry that is the one among all entries |
| ArcGot.Table.NewEntry | gdb-15.1/bfd/arc-got.h:95-127 | Appends an entry unless there is one of the type |
| ArcGot.Table.AddSymbolRef | gdb-15.1/bfd/arc-got.h:199-215 | Reserves a reloc if wanted and, unless recording the symbol failed, a word |
| ArcGot.Table.FillGotInfo | gdb-15.1/bfd/arc-got.h:217-263 | arc_fill_got_info_for_reloc |
| ArcGot.Table.FixGot | gdb-15.1/bfd/arc-got.h:309-453 | Marks the entry and patches its 32-bit value in at most once, as the specification says |
| ArcGot.Table.CreateDynRelocs | gdb-15.1/bfd/arc-got.h:455-540 | Emits the relocs of an entry at most once; the addend of a thread-local offset is the word that stands there |
| ArcGot.FilterFind | gdb-15.1/bfd/arc-got.h:80-92 | The first entry of a type in the list of a symbol is the one found among all |
| ArcGot.FilterUpdate | gdb-15.1/bfd/arc-got.h:337-452 | Changing an entry changes the list of its symbol and no other |

## Left out

- FileCache.Cache.SetUncloseable: a failure of the lookup it makes is not modelled; under the assumptions it does not occur.
- FileCache.Cache.BfdStat: the size only, no times and no modes.
- AoutHeaders.InputTransforms: stabs kept, and no indirect or warning types, since these pass the next symbol through whatever it is.
- AoutLinker.Linker.WriteOther: write_dynamic_symbol is not called, and the abort for a warning that points to a warning leaves the state as it is.
- AoutLinker.Linker.Emit: names stand for their string-table indices.
- AoutLinker.Linker.WriteSymbols: the symbol map is sized to the input, the buffer to the input and one more; the final link's buffers are at least that large.
- AoutRelocs.PartialThenFinal: compares the words to be installed, without overflow reports and without the masking of the field in `_bfd_relocate_contents`, whose body is not part of this model.
- AoutRelocs.RelocateSection: the partial link; standard relocs, base-relative relocs and the dynamic-link callback are not modelled.
- ArFile.WriteArchive: members come fresh from the file system, so every header is built anew; date, owner and mode are a parameter of 32 characters; the time stamp of the map is not updated afterwards.
- ArNames.ConstructNames: long names in thin archives, relative paths and nested thin archives are not modelled; thin archives occur in the reckoning of map offsets only.
- ArMapRead.BsdRoundTrip: of maps as the writer makes them; ArMapRead.ReadBsd is about any bytes.
- ArMapRead.ReadBsd: a name whose index is inside the strings but has no NUL behind it ends with the map, where the C string goes on beyond it.
- ArRoundTrip.BehindReads: `atoi` is unbounded, so a name length of more than 31 bits, which no field of 16 characters written here holds, is not truncated.
- ArOpen.OpensExactly: the format check on the first member and the target match are not modelled; the Mach-O sorted map is known by its name only.
- FormatPrint.PrintSound: print returns the count of what it was given; what a section or BFD pointer leads to is opaque; `abs` is on integers without a smallest one.
- MemoryFile.File.MemoryWrite: not for a file opened to be read whose buffer has no room left, where the code writes past its end; memory does not run out.
- ArcGot.Table.FixGot: what the symbol and its section resolve to, and the size of the thread control block, are parameters; the assertions on thread-local sections hold.
- ArcGotModel.GotAllocation: runs in which every request succeeds, which is when the link goes on.
- Locking, environment limits on descriptors, memory-mapped reads, Windows and VMS paths: plumbing around the cache.
- a.out header swapping, section layout, find_nearest_line and tables of reloc numbers: small finite cases or heuristics.
- Core-dump readers, COFF and PE shells, architecture tables and target vectors: they would only add easy members.
