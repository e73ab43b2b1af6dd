# chidb: a verified model

chidb is a small SQLite-style database engine. This project models four parts of it and proves what
they are for:

- **The paged B-Tree** (`btree.c`, read back by `dbm-cursor.c`): insertion with preemptive splitting,
  written once on abstract trees (`Trees`) and once on page bytes in a page store (`Pages`,
  `PageNodes`, `Btrees`); the second is proved to do what the first says.
- **The query compiler and its machine** (`optimizer.c`, `codegen.c`, `dbm-ops.c`, `dbm.c`,
  `dbm-cursor.c`): a denotational meaning of statements (`Relational`: filter, natural join and
  projection over sequences of rows), the optimizer, the planner, the code generator with its
  backpatching, the instructions, and the fetch loop. Compiled statements are proved to yield what they
  denote, down to the bytes of the pages.
- **The record codec** (`record.c`, `util.c`): builder, packer and unpacker.
- **The list library** (`simclist.c`): a doubly linked list with a cached middle, and its sort.

How the modules build on each other:

| part | modules |
|---|---|
| bytes, records | `Common`, `Bytes`, `Records`, `RecordBuffers` |
| trees | `Trees`, `TreeContents`, `TreeInsert`, `TreeRoom`, `TreePages`, `TreeFind`, `TreeHeight`, `TreeSnapshot` |
| pages | `Pages`, `PageNodes`, `BtreeReps`, `Btrees`, `BtreeMaps` |
| statements | `Sql`, `Values`, `Relational`, `Optimizer`, `OptimizerProof`, `Planner` |
| what statements name, compare and ask for | `Naming`, `Comparisons`, `Acceptance`, `AccessChoice`, `Pushing`, `UpdatePlans` |
| machine | `Machine`, `MachineRun`, `DbFiles`, `DbmCursors`, `Dbms` |
| SELECT programs | `Layout`, `JoinLayout`, `TableLayout`, `CodeRuns`, `JoinRows`, `JoinRun`, `JoinLoops`, `JoinProgram`, `JoinStart`, `TableRun` |
| what SELECT yields | `JoinOrder`, `JoinBags`, `JoinMeaning`, `JoinDenotes`, `JoinCorrect`, `JoinTheorem`, `Qualifiers`, `TableTheorem`, `Pipeline`, `Sessions` |
| control flow | `JumpTargets`, `ControlFlow`, `CursorFlow`, `JoinFlow`, `JoinReady`, `TableFlow`, `SelectFlow` |
| indexes | `IndexVisits`, `IndexRepeats`, `IndexSigns`, `AccessPaths`, `SplitIndex`, `IndexKeeping` |
| INSERT, CREATE INDEX | `InsertLayout`, `InsertRecord`, `InsertRun`, `InsertKeeping`, `IndexLayout`, `IndexRun`, `IndexFilling`, `UpdateMeaning`, `Updates` |
| the code generator | `Codegens`, `CodegenJoins`, `CodegenTables`, `CodegenSelects`, `CodegenInserts`, `CodegenIndexes` |
| lists | `ListOrders`, `SimcLists` |
| files the theorems apply to, inputs that go wrong | `Example`, `InsertExample` |

What the statements make visible about the code:

- Splitting is by cell count, so room is guaranteed only for pages that are large enough for the cells
  (`TreeInsert.RoomyPages`: three cells of one size, or `2 * hi * (hi / lo + 1)` bytes for cells that cost
  between `lo` and `hi`). The bound is for the smallest page of a file, page 1.
- An index that has split repeats its separators in a cursor. A range query over it then yields rows
  twice; `SplitIndex.SplitIndexYields` and `SplitIndex.SplitJoinYields` say exactly when,
  `Example.SplitIndexRepeats` is an input. An equality seek is always right.
- Index keys order as unsigned numbers, registers compare as signed ones. `IndexSigns.RangeBagExactly`
  says exactly when a range over an index still reads the right rows,
  `IndexSigns.NegativeLiteralMisses` is an input where it does not.
- These two are the only ways for a program to miss or repeat rows: `TableTheorem.TableYields` and
  `JoinTheorem.JoinYields` take them together (`AccessPaths.PathRight`, `JoinBags.PairsRight`), for the
  indexes a program reads, and say for rows that show their keys that nothing less will do.
- Over one table a qualifier is not looked at: `SELECT x.id FROM t` is accepted
  (`Example.MisnamedIsAccepted`). `TableTheorem.AcceptedDenotes` says when such a statement denotes
  something; its program always yields the rows of the statement without qualifiers.
- An INSERT that finds an indexed value taken leaves its row in the table without an index entry, and
  one into a table without a primary key stores NULL for its first column;
  `InsertKeeping.InsertKeepsIndexes` says exactly when the indexes still agree, `InsertExample` has an
  input for either.
- A CREATE INDEX that meets a repeated value leaves its index registered and filled up to that row.

What the main statements assume:

- *Files* (`JoinCorrect.Stored`, `DbFiles.FileStored`): every table of the schema has a tree of rows with
  ascending keys below 2^31 that have the types of its columns, and every tree is in its own pages. Halting
  and positioned cursors (`SelectFlow`) need no assumption about the file at all.
- *Indexes* (`JoinCorrect.PathStored`): the entries of an index that the program reads are the pairs of
  the rows, in key order and with any repetitions; an index that is not read may be anything. For the run
  to be safe it is enough that the entries lead to rows (`JoinCorrect.PathLinked`).
- *Literals* (`ListInRange`): integer literals in conditions on one table have 32 bits, as the parser
  reads them.
- *Joins* (`SharedTypesAgree`): shared columns have one type.
- *Updates* (`InsertRun.InsertFits`, `IndexRun.IndexFits`): the trees written to are well formed and fit in
  their pages, the page size is large enough for their cells, and page numbers have 32 bits: 35 pages
  are left for every insertion.
- *Records* (`Machine.Buildable`): strings of at most 1024 bytes, a header of at most 255 bytes, at most
  63 * 1024 bytes of data.

## Model

| member | source | states |
|---|---|---|
| `TreeInsert.InsertKeeps` | src/libchidb/btree.c:731-877 | Inserting into any well-formed tree (ascending keys, every separator the largest entry on its left, all leaves at one depth) gives a well-formed tree, one deeper exactly when the root was full; the key is reported as a duplicate exactly when it was there, and then the entries are unchanged although nodes may have been split; otherwise exactly the new entry is added. |
| `TreeInsert.FullCells` | src/libchidb/btree.c:102-105 | Under the size limits a full node has at least three cells, so a split never meets a node without a cell to split at. |
| `TreeContents.SplitWf` | src/libchidb/btree.c:903-998 | Both halves of a split are well formed and non-empty, the promoted separator is the largest entry of the lower half, and the upper half keeps the largest entry of the whole. |
| `TreeRoom.InsertRoom` | src/libchidb/btree.c:738-781 | No insertion runs out of room: every node reached on the way down, after any split made for it, has the room of the cell it may receive plus its slot, the root split included, and no page of the resulting tree overflows. |
| `TreeRoom.SplitLeafRoom` | src/libchidb/btree.c:850-875 | After a leaf is split by cell count, both halves have room for the new entry and its slot, so the one chosen for it has. |
| `TreePages.InsertPages` | src/libchidb/btree.c:731-998 | An insertion keeps the root page and all pages of the tree and adds exactly the pages it allocates; no page is shared by two nodes. |
| `TreeFind.FindIsLookup` | src/libchidb/btree.c:597-643 | The descent by separators finds exactly what a search through all entries of the tree finds, and it ends, on the height of the tree. |
| `TreeFind.InsertThenFind` | src/libchidb/btree.c:597-877 | After one insertion a find returns the new payload for its key, unless the key was there, and what it returned before for every other key. |
| `TreeFind.FindAfterInsertions` | src/libchidb/btree.c:597-877 | From an empty root, after any sequence of insertions, a find returns the payload first accepted for a key, and nothing for every other key. |
| `TreeSnapshot.TableSnapshot` | src/libchidb/dbm-cursor.c:75-128 | The cursor of a table tree sees exactly its entries, in order. |
| `TreeSnapshot.IndexSnapshot` | src/libchidb/dbm-cursor.c:75-128 | The snapshot of an index tree never descends, holds exactly the entries of the tree, and holds an entry twice exactly when it is a separator. |
| `TreeSnapshot.StrictSnapshot` | src/libchidb/dbm-cursor.c:114-123 | The snapshot of an index tree is strictly ascending if and only if the tree has no separator. |
| `Pages.LayoutUnique` | src/libchidb/btree.c:468-521 | The bytes of a page determine its cells. |
| `Pages.InsertedLayout` | src/libchidb/btree.c:534-578 | Writing a cell at the top of the free area and opening its slot turns the layout of a cell list into the layout of that list with the cell inserted: slots in bounds, extents disjoint, all earlier cells bit for bit where they were. |
| `PageNodes.ShiftSlots` | src/libchidb/btree.c:534-578 | The loop over the slot array moves every slot from the position on by one and leaves the other bytes alone. |
| `PageNodes.BTreeNode.GetCell` | src/libchidb/btree.c:468-521 | Reads back cell i of the page, or reports that there is none. |
| `PageNodes.BTreeNode.InsertCell` | src/libchidb/btree.c:534-578 | On the page bytes: the page then holds the cell list with the cell inserted at the position, one more cell, free offset and cells offset moved accordingly; a position beyond the cells changes nothing. |
| `PageNodes.WriteCell` | src/libchidb/btree.c:534-578 | For every cell of each of the four kinds: its bytes are written in its extent and nowhere else, and what is then there is the cell with table keys modulo 2^28 and all other numbers modulo 2^32. |
| `Pages.KeptIff` | src/libchidb/btree.c:534-578 | A cell is kept as it is if and only if its numbers have no more bits than are written; a table key of 2^28 or more becomes another key. |
| `PageNodes.ReadCell` | src/libchidb/btree.c:468-521 | A cell whose bytes are at an offset is read back. |
| `BtreeReps.RepFrame` | src/libchidb/btree.c:731-998 | A tree stays stored when the pages it lives in have not changed. |
| `Btrees.FindPosition` | src/libchidb/btree.c:111-129 | The loop returns the first position whose key is at least the given key. |
| `Btrees.BTree.GetNodeByPage` | src/libchidb/btree.c:292-330 | A page number of the file gives a fresh copy of its bytes and header; any other number gives nothing. |
| `Btrees.BTree.WriteNode` | src/libchidb/btree.c:432-460 | The page then holds the cells of the node, and no other page changes. |
| `Btrees.BTree.NewNode` | src/libchidb/btree.c:364-425 | One page is added to the file, an empty node of the type; no other page changes. |
| `Btrees.BTree.FindEntry` | src/libchidb/btree.c:597-643 | On page bytes: what the descent on the stored tree finds. |
| `Btrees.BTree.Split` | src/libchidb/btree.c:903-998 | On page bytes: the lower half is on the new page, the upper half keeps the page, the parent has the new cell at its position, and no other page changes. |
| `Btrees.BTree.InsertNonFull` | src/libchidb/btree.c:809-877 | On page bytes: the pages below the node store what the insertion on trees gives, with the same duplicate answer and page count, and only pages of the tree and new ones are written. |
| `Btrees.BTree.Insert` | src/libchidb/btree.c:731-781 | The same for a whole tree, with the root split that keeps the root page number. |
| `BtreeMaps.InsertEntry` | src/libchidb/btree.c:731-998 | In a file of many trees, each well formed and all on disjoint pages: the map of one tree gains the entry, or the key was there and no map changes; every other tree keeps its map and pages, and all trees stay well formed and disjoint. No precondition about room remains. |
| `BtreeMaps.InsertInTable` | src/libchidb/btree.c:667-690 | The same for a key and a record; keys are below 2^28. |
| `BtreeMaps.InsertInIndex` | src/libchidb/btree.c:698-716 | The same for an index pair; keys use all 32 bits. |
| `BtreeMaps.FindInTable` | src/libchidb/btree.c:597-643 | Reads the map of the tree from the file: the payload of the key, or nothing exactly when the key is not there. |
| `BtreeMaps.CreateTree` | src/libchidb/btree.c:364-425 | A new empty tree joins the file on a fresh page. |
| `TreeHeight.HeightIsLogarithmic` | src/libchidb/btree.c:731-998 | Every level of a well-formed tree at least doubles the number of its entries. |
| `TreeHeight.HeightAtMost32` | src/libchidb/btree.c:597-643 | With 32-bit keys no tree is higher than 32 levels. |
| `TreeHeight.PageCount` | src/libchidb/btree.c:364-371 | An insertion allocates at most as many pages as the tree is high, and three. |
| `Bytes.Get4Put4` | src/libchidb/util.c:54-65 | Four big-endian bytes give a number back modulo 2^32. |
| `Bytes.GetVarintPutVarint` | src/libchidb/util.c:67-94 | The four-byte varint gives a number back if and only if it is below 2^28; otherwise it gives it modulo 2^28. |
| `Bytes.BigEndian4` | src/libchidb/util.c:54-65 | Four bytes stand for numbers that compare like the bytes, the first one first. |
| `Bytes.BigEndianVarint` | src/libchidb/util.c:67-94 | The same for varints, of whose bytes seven bits count. |
| `Records.UnpackPacked` | src/libchidb/record.c:283-381 | For every field list within the limits, unpacking the packed record gives the same number of fields, types and values, whatever bytes follow it. |
| `Records.ReadHeader` | src/libchidb/record.c:283-345 | Reading a header from any field on gives the type codes of the remaining fields: the 0x80 bit tells four-byte from one-byte entries. |
| `Values.FieldReadsBack` | src/libchidb/dbm-ops.c:249-308 | Every field of a packed record, NULL, one-, two- and four-byte integer or text, reads back as its value. |
| `RecordBuffers.DBRecordBuffer.AppendString` | src/libchidb/record.c:225-250 | The builder then stands for one more field; its buffer grew at most once. |
| `RecordBuffers.DBRecordBuffer.AppendInt32` | src/libchidb/record.c:178-196 | The builder then stands for one more field. |
| `RecordBuffers.DBRecordBuffer.Finalize` | src/libchidb/record.c:260-280 | The record has the types and bytes of the appended fields, every getter gives its field back, and the packed length is the length of header and body. |
| `RecordBuffers.Pack` | src/libchidb/record.c:357-381 | The loop over the header entries writes exactly the packed record. |
| `RecordBuffers.UnpackRecord` | src/libchidb/record.c:283-345 | The loops over header and offsets compute the unpacked record, or report a record that is cut short or whose header position, a byte, wraps around. |
| `RecordBuffers.GetString` | src/libchidb/record.c:471-500 | The string getter returns the field of an unpacked record. |
| `Dbms.ReadColumn` | src/libchidb/dbm-ops.c:249-308 | Unpacking a record and asking it for a field by its type gives the value of the column. |
| `Optimizer.FlattenConjuncts` | src/libchidb/optimizer.c:132-147 | Pushes the leaves of the AND chain, from left to right. |
| `Optimizer.Optimize` | src/libchidb/optimizer.c:157-242 | The loops and the new tree are the rewriting on which meaning, acceptance and completeness of pushing are proved. |
| `OptimizerProof.OptimizedMeansSame` | src/libchidb/optimizer.c:157-242 | For every schema, file and statement the optimized statement denotes the same rows in the same order, or nothing exactly when the original does. |
| `Pushing.PushedCompletely` | src/libchidb/optimizer.c:157-242 | Pushing is complete, told from the two tables alone: every comparison of a column with a literal, in either order, whose qualifier names a table or whose unqualified column just one of the tables has, is a conjunct of the selection over that table; all others stay over the join; in each place in their order. |
| `Pushing.PushedLeaf` | src/libchidb/optimizer.c:157-242 | One conjunct at a time: it is over the left table, the right table or the join if and only if it belongs there. |
| `Pushing.OnlyJoinsChange` | src/libchidb/optimizer.c:157-180 | A statement that is not a selection over the natural join of two tables that exist is not changed. |
| `Pipeline.ClassifiedSide` | src/libchidb/optimizer.c:83-130 | Whenever the classifier moves a conjunct to a side and the resolver accepts it, the resolver picks that side. |
| `Pipeline.BucketsResolve` | src/libchidb/optimizer.c:180-242 | The conjuncts of a statement resolve if and only if those of all three buckets do. |
| `Pipeline.OptimizedAccepted` | src/libchidb/codegen.c:1312-1449 | The code generator accepts the optimized statement if and only if it accepts the original. |
| `JoinMeaning.NegatedJump` | src/libchidb/codegen.c:265-320 | A conjunct is compiled to the jump that is taken exactly when it does not hold. |
| `Comparisons.TextLessIs` | src/libchidb/dbm-ops.c:105-110 | A text is less than another if and only if it is a proper prefix of it or has the smaller byte where they first differ. |
| `Comparisons.CompareHoldsIs` | src/libchidb/codegen.c:265-320 | What a condition says of two values: integers by size, texts by that order, and nothing of values of different kinds. |
| `Comparisons.CompareJumps` | src/libchidb/dbm-ops.c:435-483 | What the six comparison instructions do with two integers or two texts: they jump exactly when the register of the third operand stands so to that of the first. |
| `Naming.SameNameIs` | src/libchidb/util.c:291-297 | Names are the same when their letters are, whatever their case. |
| `Naming.ColumnIndexIs` | src/libchidb/codegen.c:82-93 | A column name stands for the first column of that name, and for nothing only when there is none. |
| `Naming.FindTableIs` | src/libchidb/util.c:291-297 | A table name stands for the first table of that name, and for nothing only when there is none. |
| `Naming.FindIndexOnIs` | src/libchidb/util.c:299-315 | The index on a column is the first one of the schema, and there is none only when the schema has none. |
| `Acceptance.ResolveIs` | src/libchidb/codegen.c:376-395 | A reference resolves to the column it means: of the table its qualifier names, the left one first, or of the first table that has it. |
| `Acceptance.AcceptedIs` | src/libchidb/codegen.c:1312-1459 | A SELECT has a plan if and only if it projects `*` or known columns of one table, or of the natural join of two, and every condition is an AND chain of comparisons of a known column with a literal of its type, on either side. |
| `AccessChoice.PlanAccessIs` | src/libchidb/codegen.c:885-919 | One equality, one bound, or a lower and an upper bound on one column, in either order, are read through the first index on the column; without index, and for all other conjuncts, the table is scanned. |
| `AccessChoice.SharedAre` | src/libchidb/codegen.c:954-976 | A column of the left table is joined with the first column of its name in the right table, and no other pair is. |
| `AccessChoice.StarAre` | src/libchidb/codegen.c:978-1003 | `*` shows all columns of the left table, and those of the right table that are not joined. |
| `JoinMeaning.ResolveJoinIsScope` | src/libchidb/codegen.c:751-796 | A column reference resolves exactly when the scope of the two tables has it, and to the same place, with the type of that column. |
| `JoinMeaning.LeafHolds` | src/libchidb/codegen.c:265-320 | A resolved comparison passes on a pair of rows if and only if the condition holds of the joined row. |
| `JoinDenotes.StarIsVisible` | src/libchidb/codegen.c:978-1003 | `*` over a join is the left columns and then the right columns that are not shared: the visible columns of the natural join. |
| `JoinDenotes.NestedDenotes` | src/libchidb/codegen.c:921-1298 | The nested walk over two lists of rows emits, in order, what filter, natural join and projection denote. |
| `Qualifiers.PlainPlan` | src/libchidb/codegen.c:376-395 | Over one table the code generator makes the same of a statement with and without its qualifiers. |
| `TableTheorem.AcceptedDenotes` | src/libchidb/codegen.c:376-395 | An accepted statement over one table denotes something if and only if its qualifiers name the table, and then the same as without them. |
| `Example.MisnamedIsAccepted` | src/libchidb/codegen.c:376-395 | The input that shows it: `SELECT x.id FROM t` is accepted and denotes nothing, while the statement without its qualifier denotes the two rows of t. |
| `IndexVisits.EqVisitsPassing` | src/libchidb/codegen.c:885-919 | An equality seek reads what a scan with the same conjunct keeps, whatever the index repeats and whatever the signs. |
| `AccessPaths.VisitsExactly` | src/libchidb/codegen.c:885-919 | Whatever path a table is read through, the rows visited and checked are a permutation of its rows that satisfy all conjuncts of that side if and only if the path is right, as a scan and an equality seek always are; a scan visits them in key order. |
| `AccessPaths.ReadCount` | src/libchidb/codegen.c:693-745 | How often a path reads each row, told from its value, the bounds and the copies of its entry alone. |
| `IndexVisits.PassIsSeek` | src/libchidb/dbm-ops.c:105-110 | A conjunct holds of a row exactly when its seek matches the entry of the row, if the signs agree. |
| `IndexSigns.RangeBagExactly` | src/libchidb/dbm-ops.c:186-247 | For values of both signs and snapshots that repeat entries: a range path over an index whose entries are the pairs of the rows reads what a scan with the same conjuncts keeps, as a bag, if and only if a stated condition on the signs of values and bounds holds and no row of the range has an entry that the snapshot repeats. |
| `IndexSigns.NegativeLiteralMisses` | src/libchidb/dbm-ops.c:199-210 | The input that shows it: `id > -1` over an index misses the row 5. |
| `IndexRepeats.VisitsStretch` | src/libchidb/dbm-cursor.c:207-256 | What a range visits is a stretch of the snapshot: the entries the seek hits, up to the first whose row is beyond the upper bound. |
| `IndexRepeats.VisitsPerCopy` | src/libchidb/dbm-cursor.c:207-256 | Whatever the signs and however often the snapshot repeats entries: a range visits a row once for each copy of its entry when the seek hits the entry and no row before it is beyond the upper bound, and not at all otherwise. |
| `SplitIndex.SplitIndexYields` | src/libchidb/codegen.c:693-745 | From a statement over one table and a file whose index tree, of any shape, holds the pairs of the rows: the program runs to Halt; when the signs are right its rows are those the statement denotes if and only if no row of the answer lies on a separator of a tree that a range runs over, and otherwise there are more of them. |
| `SplitIndex.SplitTimes` | src/libchidb/dbm-cursor.c:114-123 | Over an index tree that holds the pairs of the rows, and with right signs, a range reads a row of the answer twice if its entry is a separator, once if it is not, and no other row. |
| `SplitIndex.TreeCovers` | src/libchidb/dbm-cursor.c:114-123 | A file whose index tree holds the pairs of the rows is one the theorems about SELECT apply to. |
| `SplitIndex.SplitJoinYields` | src/libchidb/codegen.c:921-1298 | The same for a join: right if and only if no pair of the answer has a row on a separator of a tree that a range runs over, and otherwise there are more rows. |
| `Example.SplitIndexRepeats` | src/libchidb/dbm-cursor.c:114-123 | The input that shows it: two rows, an index whose root has split once, `t.id > 0`. |
| `CodeRuns.CheckAllRuns` | src/libchidb/codegen.c:420-433 | The checks of a list of conjuncts fall through exactly when all of them pass and jump to their target otherwise, leaving cursors and lower registers alone. |
| `JoinLoops.InnerLoop` | src/libchidb/codegen.c:1174-1247 | From any entry of the driving cursor, the inner loop yields the matching rows of the rest of the walk and ends behind its advance instruction. |
| `JoinProgram.StartSide` | src/libchidb/codegen.c:1134-1180 | A scan or a range seek that finds a first entry leaves the driving cursor on it and falls into the loop; one that finds none goes to the exit of the loop, not to its advance instruction. |
| `JoinStart.JoinRuns` | src/libchidb/codegen.c:921-1298 | The join program runs from its first instruction to Halt and yields exactly the rows of the nested walk, for all nine combinations of access paths. |
| `JoinBags.PairCount` | src/libchidb/codegen.c:1183-1247 | The nested walk meets a pair of rows once for every way to pick its two rows from the walks of the sides. |
| `JoinBags.JoinOutputExactly` | src/libchidb/codegen.c:921-1298 | The rows of the join program are the nested-loop rows over the rows that pass, as a bag, if all pairs are right, and if the outputs show both keys only then. |
| `JoinBags.SidesRight` | src/libchidb/codegen.c:885-919 | When each path is right by itself all pairs are right. |
| `JoinTheorem.JoinYields` | src/libchidb/codegen.c:921-1298 | Running a compiled natural join to Halt yields the bag of rows the statement denotes if all pairs are right, that is if of two rows that meet each is read once when both should be read and one is not read at all when not; if the outputs show both keys only then; in the denoted order, left-major by key, when both sides are scanned. Only the indexes that are read matter, and they may have split and hold values of both signs. |
| `TableRun.TableRuns` | src/libchidb/codegen.c:1395-1449 | The program over one table runs to Halt and yields exactly the rows of its walk. |
| `TableTheorem.TableYields` | src/libchidb/codegen.c:1312-1449 | Running a compiled statement over one table to Halt yields the bag of rows the statement without its qualifiers denotes if its path is right, and if the rows show their key only then; in key order for a scan. |
| `TableTheorem.IndexYieldsScan` | src/libchidb/codegen.c:693-745 | For every indexed column and every one- or two-sided bound the index program yields the same bag of rows as the scan program if the path is right, and if the rows show their key only then. |
| `JoinTheorem.JoinIsSafe` | src/libchidb/codegen.c:921-1298 | On every file of typed tables whose index entries lead to rows: the run of a join is bounded, and in every state it can reach the next instruction is defined and finds its cursor positioned. |
| `TableTheorem.TableIsSafe` | src/libchidb/codegen.c:1312-1449 | The same for every statement over one table. |
| `MachineRun.StoppingIsSafe` | src/libchidb/dbm.c:199-218 | In every state that a run to the end can reach, the instruction is defined, and the cursor it reads or moves is open and positioned. |
| `Pipeline.PipelineYields` | src/libchidb/api.c:87-125 | Optimizing, compiling and running a natural join yields the rows that the statement as written denotes if all pairs are right, and if the outputs show both keys only then. |
| `Pipeline.PipelineSafe` | src/libchidb/codegen.c:1212-1247 | For every such join on every file of typed tables whose index entries lead to rows, split or not and with values of any sign: the run is bounded, the program counter stays in the program, and in every state it can reach the instruction is defined and its cursor positioned; a failed inner seek never reaches the advance. |
| `JumpTargets.JoinJumps` | src/libchidb/codegen.c:1128-1277 | For every plan whatever, all jumps of the join program lead into the program. |
| `JumpTargets.TableJumps` | src/libchidb/codegen.c:1395-1449 | The same for every program over one table. |
| `JumpTargets.IndexJumps` | src/libchidb/codegen.c:470-531 | The same for every CREATE INDEX program. |
| `ControlFlow.TurnDescends` | src/libchidb/dbm.c:199-218 | In a program of at most two nested loops whose bodies leave the cursor of their advance instruction alone, every turn makes a lexicographic measure smaller: outer moves, inner moves, rest of the program. |
| `ControlFlow.NestedHalts` | src/libchidb/dbm.c:199-218 | Such a program halts from every state: a bounded number of turns, and the program counter never leaves it. |
| `JoinFlow.JoinHalts` | src/libchidb/codegen.c:1128-1298 | Every join program is such a program. |
| `TableFlow.TableHalts` | src/libchidb/codegen.c:1395-1449 | So is every program over one table. |
| `TableFlow.IndexHalts` | src/libchidb/codegen.c:470-531 | Every CREATE INDEX program halts, on every database. |
| `SelectFlow.SelectHalts` | src/libchidb/codegen.c:1312-1459 | The program of every accepted SELECT halts, on every database. |
| `CursorFlow.FlowIsReady` | src/libchidb/dbm-ops.c:162-182 | When the cursors positioned at each instruction can be told from the program, every instruction that needs one finds it positioned, on every run. |
| `JoinReady.JoinCursorsReady` | src/libchidb/codegen.c:1128-1298 | They can be told of every join program whose left filter reads the left table: a seek or rewind that fails jumps past all reads and advances of its cursor. |
| `TableFlow.TableCursorsReady` | src/libchidb/codegen.c:1395-1449 | And of every program over one table. |
| `TableFlow.IndexCursorsReady` | src/libchidb/codegen.c:470-531 | And of every CREATE INDEX program. |
| `SelectFlow.PreparedReady` | src/libchidb/api.c:87-125 | In every state that the program of an accepted, optimized SELECT reaches, on every database, Key, Column, IdxPKey, Next and Prev find their cursor positioned. |
| `Codegens.EmitFilterChecks` | src/libchidb/codegen.c:420-433 | Appends the checks with open jumps and pushes the address of each onto the patch list. |
| `Codegens.PatchAll` | src/libchidb/codegen.c:1242-1269 | Patching a list of open jumps makes each of them right and touches nothing else. |
| `Codegens.ChecksBlank` | src/libchidb/codegen.c:420-433 | The checks with open jumps differ from the final ones exactly in the targets of the pushed addresses. |
| `CodegenJoins.AllocateJoinRegs` | src/libchidb/codegen.c:1054-1070 | Counting registers up one by one gives the registers of the plan. |
| `CodegenJoins.EmitInner` | src/libchidb/codegen.c:1171-1198 | Emits the inner loop up to its row checks; the seek that may find nothing and the upper bound are left to be patched with the address behind the advance. |
| `CodegenJoins.EmitInnerEnd` | src/libchidb/codegen.c:1233-1247 | Retries lead to the advance; a failed start and the upper bound lead behind it. |
| `CodegenJoins.EmitJoin` | src/libchidb/codegen.c:1054-1298 | Emitting front to back and patching in place, within four slots for the die list and the sizes of the other lists, gives exactly the join program of the plan. |
| `CodegenTables.EmitScan` | src/libchidb/codegen.c:1395-1449 | The emitted and patched scan is the program of the plan. |
| `CodegenTables.EmitIndexed` | src/libchidb/codegen.c:693-745 | The emitted and patched index walk is the program of the plan. |
| `CodegenSelects.ResolveConditions` | src/libchidb/codegen.c:348-375 | The loop resolves all conjuncts or fails exactly when one of them does not resolve; no resolved literal is a floating-point number. |
| `CodegenSelects.AllColumns` | src/libchidb/codegen.c:978-1003 | The two loops produce the columns of `*`, left before right, without the join columns of the right table. |
| `CodegenSelects.CodegenSelect` | src/libchidb/codegen.c:1312-1459 | A statement is accepted if and only if it is a projection of one table or of the natural join of two, with outputs and conditions that the schema knows (`Acceptance.Accepted`); then the statement object holds the program of its plan and the width of its rows, otherwise it is left as it was. |
| `CodegenSelects.Prepare` | src/libchidb/api.c:87-125 | The same for the program of the optimized statement; what is accepted is told from the original. |
| `DbmCursors.CollectPage` | src/libchidb/dbm-cursor.c:75-128 | Reading the pages in order gives the snapshot of the stored tree. |
| `DbmCursors.SeekFirst` | src/libchidb/dbm-cursor.c:194-231 | The loop finds the first matching entry. |
| `DbmCursors.SeekLast` | src/libchidb/dbm-cursor.c:233-258 | The loop finds the last matching entry. |
| `Dbms.Stmt.SetOp` | src/libchidb/dbm.c:152-178 | One instruction is set, the array grown to it if need be, and no other changes. |
| `Dbms.Stmt.Handle` | src/libchidb/dbm-ops.c:78-82 | Every handler, on registers, cursors and the pages of the file, does what its instruction means on the abstract machine, with the same return code. |
| `Dbms.Stmt.InsertInto` | src/libchidb/dbm-ops.c:420-432 | An insertion on pages is the insertion on the stored trees; a duplicate answers CHIDB_ECONSTRAINT. |
| `Dbms.Stmt.HandleMakeRecord` | src/libchidb/dbm-ops.c:373-418 | The record built from a range of registers is the packed record of their values. |
| `Dbms.Stmt.Exec` | src/libchidb/dbm.c:199-218 | A call runs the program to its next row, its end or a violated constraint, and the row width it asserts holds. |
| `Sessions.FetchAll` | src/libchidb/dbm.c:199-218 | Calling until the statement is done gathers all rows of its run, in order. |
| `Sessions.QueryJoin` | src/libchidb/api.c:87-145 | From a statement tree and the pages of a file to the rows: a natural join is accepted if and only if the schema knows what it names (`Acceptance.Accepted`), and then the client gets the bag of rows it denotes if the pairs are right, and if the rows show both keys only then; in order when both sides are scanned. |
| `Sessions.QueryTable` | src/libchidb/api.c:87-145 | The same for a statement over one table, qualifiers aside. |
| `IndexKeeping.HoldsAfterBoth` | src/libchidb/dbm-ops.c:580-589 | A row and its entry, inserted both, keep an index equal to the pairs of its rows. |
| `IndexKeeping.BrokenWithoutEntry` | src/libchidb/codegen.c:542-629 | A new row without its entry breaks the index. |
| `IndexKeeping.BrokenByEntry` | src/libchidb/codegen.c:542-629 | So does a new row with an entry that is not its own. |
| `IndexKeeping.HoldsForSelect` | src/libchidb/dbm-cursor.c:114-123 | The snapshot of an index tree, split or not, covers the table, which is what SELECT asks, if and only if the entries of the tree are the pairs of the rows. |
| `InsertRecord.NewRow` | src/libchidb/codegen.c:542-629 | The inserted row is the row of its literals if and only if each of them reads back: a column marked as primary key from the key of the entry, any other but the key column from the record; then the row has the types of its columns. |
| `UpdatePlans.InsertPlanIs` | src/libchidb/codegen.c:542-629 | An INSERT has a plan if and only if its table exists and each column gets a literal of its type; the plan has the first column marked as primary key as key column, and as targets the indexes of the schema on that table, each once, with the columns they name. |
| `InsertRun.EntryGoesIn` | src/libchidb/dbm-ops.c:420-432 | An insertion answers CHIDB_ECONSTRAINT exactly when the key is there; otherwise the tree gets the entry and stays sound, and no other tree changes. |
| `InsertRun.InsertRuns` | src/libchidb/codegen.c:542-629 | An INSERT program, into a table with or without a primary key, always stops: at Halt with the row in the table and its entry in every index exactly when no key was taken; otherwise with a violated constraint, at the table with nothing changed, or at the first index that has the value. |
| `InsertKeeping.InsertKeepsIndexes` | src/libchidb/codegen.c:542-629 | If all indexes on a table equal the pairs of its rows, they still do after the program if and only if the primary key was taken, or no key was taken and every indexed column reads back; all other trees keep their entries. |
| `InsertExample.TakenValueBreaks` | src/libchidb/codegen.c:599-621 | An input: a table with the row (1, 7) and an index on its second column; inserting (2, 7) is refused at the index, which then does not agree with the table. |
| `InsertExample.NoKeyBreaks` | src/libchidb/codegen.c:585-593 | Another input: a table without a primary key and an index on its first column; inserting a row succeeds, and the index does not agree any more. |
| `CodegenInserts.CodegenInsert` | src/libchidb/codegen.c:542-629 | Checking the literals and walking over the schema emits exactly the INSERT program of the plan, or nothing when the statement is refused; which plan that is `UpdatePlans.InsertPlanIs` says. |
| `IndexRun.SchemaRowBack` | src/libchidb/util.c:250-289 | The schema row of a new index reads back as its word, names, root page and text. |
| `UpdatePlans.IndexPlanIs` | src/libchidb/codegen.c:470-531 | A CREATE INDEX has a plan if and only if it names an integer column of a table that exists; the plan is for that column, with the bytes of both names, the text of the statement and a key above all others. |
| `IndexFilling.TakenIsRepeated` | src/libchidb/codegen.c:506-520 | In an index of the first rows the value of the next row is taken exactly when it repeats one of theirs. |
| `IndexFilling.IndexRuns` | src/libchidb/codegen.c:470-531 | A CREATE INDEX program always stops; it runs to Halt exactly when no two rows have the same value. In either case the index is registered and holds exactly the pairs of the rows before the first one that repeats a value, the schema table has its row, and no other tree has changed. |
| `IndexFilling.AllIndexed` | src/libchidb/codegen.c:470-531 | Once the last row is indexed the new index agrees with the table. |
| `CodegenIndexes.NextKey` | src/libchidb/util.c:317-324 | The loop gives a key above all keys of the schema. |
| `CodegenIndexes.NextKeyIsFree` | src/libchidb/util.c:317-324 | That key is not in the schema table the schema was loaded from. |
| `CodegenIndexes.CodegenIndex` | src/libchidb/codegen.c:470-531 | Emitting and patching the Rewind gives exactly the CREATE INDEX program of the plan, or nothing when the statement is refused; which plan that is `UpdatePlans.IndexPlanIs` says. |
| `InsertRun.SoundTakes` | src/libchidb/btree.c:731-877 | A sound tree has room for every entry of its kind and stays within its pages, with only the page counter to watch. |
| `Updates.ExecInsert` | src/libchidb/codegen.c:542-629 | From the statement, the schema and the pages of a file: INSERT is accepted if and only if the table exists and the literals fit its columns. It comes to an end: refused exactly when its key or a value of one of the indexes of the schema on its table is taken; a taken key changes nothing; otherwise the row with its literals is there, and on success every one of these indexes has its entry. They agree afterwards exactly when the key was taken, or nothing was and all indexed columns read back; all other trees keep their entries, and the file still stores every tree on pages of its own. |
| `Updates.ExecCreateIndex` | src/libchidb/codegen.c:470-531 | From the statement and the pages of a file: CREATE INDEX comes to an end, at Halt exactly when the values are distinct; the new tree on the pages holds the pairs of the rows up to the first that repeats a value, which is the end of the table exactly when it halts. |
| `Example.TheoremApplies` | src/libchidb/codegen.c:921-1298 | The assumptions of the join theorems hold together of a concrete file and statement, whose condition is pushed to one side and read through an index there; its outputs show both keys and its pairs are right. |
| `Example.InsertApplies` | src/libchidb/codegen.c:542-629 | The assumptions of the theorem about INSERT hold together of a concrete statement on the same file. |
| `SimcLists.List.FindPos` | libs/simclist/simclist.c:433-457 | From whichever of head, tail and middle it starts, the walk reaches the node at the position; sentinels are positions -1 and n; any other position gives nothing. |
| `SimcLists.List.InsertAt` | libs/simclist/simclist.c:477-524 | The list then holds the sequence with the element inserted, with chain, middle pointer and spare pool right; nodes come from the pool or are fresh; refused during iteration and beyond the end, and then nothing changes. |
| `SimcLists.List.DropElem` | libs/simclist/simclist.c:1391-1417 | The list then holds the sequence without the element, with the middle pointer at (n-1)/2. |
| `SimcLists.List.ExtractAt` | libs/simclist/simclist.c:459-475 | Returns the element it removes. |
| `SimcLists.List.DeleteAt` | libs/simclist/simclist.c:542-558 | Removes one element, or changes nothing when refused. |
| `SimcLists.List.DeleteRange` | libs/simclist/simclist.c:560-621 | The list then holds the sequence without the range, and the number of removed elements is returned. |
| `SimcLists.List.Clear` | libs/simclist/simclist.c:623-667 | The list is then empty and the number of removed elements is returned; refused during iteration. |
| `SimcLists.List.SelectionSort` | libs/simclist/simclist.c:794-812 | Sorts a segment by swapping data only: a permutation of it, in order, the rest of the list unchanged. |
| `SimcLists.List.QuickSort` | libs/simclist/simclist.c:815-936 | The same by partitioning around any pivot, and it terminates. |
| `SimcLists.List.Sort` | libs/simclist/simclist.c:766-783 | For any total preorder and either direction the data is a sorted permutation of what it was, the node chain is untouched; without comparator or during iteration nothing changes. |
| `SimcLists.Concat` | libs/simclist/simclist.c:713-764 | A fresh, valid list with the elements of both. |
| `ListOrders.QuickSorted` | libs/simclist/simclist.c:815-936 | A partition whose two sides are sorted, each by permuting it, is sorted as a whole. |
| `ListOrders.MeetingSwap` | libs/simclist/simclist.c:815-936 | Swapping two elements that are on the wrong sides of the pivot keeps what the two scans have established, with both scans one further. |

## Left out

- Files, the header of page 1 and `chidb_Btree_open`: pages live in a map from page number to bytes, and a page that was never written reads as zeros. Reading and writing cannot fail there.
- Memory management and allocation failure: registers, cursors and snapshots are values of their own; strings hold no NUL byte.
- The SQL parser: statements are trees, and the schema is a list of tables with columns and of indexes, not text parsed again. `chidb_schema_load` is modelled only by what the schema row of an index reads back as.
- CREATE TABLE statements: the instruction is modelled, the statement's program would only repeat the first half of CREATE INDEX.
- DELETE, ORDER BY, GROUP BY, aggregates, outer joins and set operations: parsed but not compiled; the constructor `Other` of `Sra` stands for them. DISTINCT is ignored by the code generator, and so it is here.
- The instructions IdxGt, IdxGe, IdxLt, IdxLe, Copy and SCopy, which no statement compiles to; EXPLAIN; printing.
- `SRA_desugar`, the shell, the program loader, `chidb_tokenize`.
- simclist: threads, hashing, iterators (only the flag that locks a list while one is active), serialization, attributes that copy data, `list_locate` and the other searches. `list_findpos` compares with fractions of the length in floating point; the model compares exactly.
- Undefined: a step of the machine that the C code leaves undefined (a register or cursor that does not exist, a read through a cursor that is not positioned, a comparison of different kinds, a table key of 2^28 or more) has the outcome `Undefined`; the statements about runs prove that it does not occur.
- InsertRun.InsertRuns: assumes that the key is an integer from 0 to 2^28 - 1, which the source takes for granted; beyond that the four-byte varint loses bits and the row would be stored under another key (`Pages.KeptIff`), which breaks the order of the tree.
- Bit operations are written as divisions and remainders by powers of two.
