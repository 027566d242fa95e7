# Wafer-map NKF7 accumulator and SVT database agent, modelled in Dafny

This project models the computational core of a silicon-vertex-tracker (SVT)
wafer-testing repository.

The centre is the **NKF7 column accumulator** of the SENTIO wafer-map export,
`extract_nkf7_interger_coords`. A wafer map has `Groups`, ordered die slots
that each carry a `FamilyType`. It also has `MapGroups`, rows of column
blocks. Each block names a group and lists its `ExistingAsics` and
`MechanicallyIntergerASICs`, either as indices or as `"All"`. The accumulator
walks each row with a column cursor. In Group2 and Group9 blocks it records
the intact NKF7 die at the target slot under its physical column. It returns
a coordinate map and a per-row summary. The model keeps two versions apart:

- `SentioMap`: the current script. Its cursor advances by each block's width.
- `SentioMapPositional`: the earlier script. It uses the block's index as the column.

The C++ agent consumes the same document:

- `WaferTypeCheck`: the validator `parse_range`/`checkWaferMap`.
- `WaferAsics`: `createAllAsics`, the C++ twin of the accumulator. It emits one ASIC record per existing die and numbers the columns per row.

The rest of the agent code is modelled with the database as an input. Query
results are sequences of rows of optional cells. Inserts are appends to a
table.

- `WaferRecords`: the wafer validators and statements.
- `AsicDb`: the ASIC filters, the row post-check and the pager.
- The SQL text builders of the three agents:
  - `SqlText`: the helpers the builders share;
  - `SqlSvt`: the SVT agent;
  - `SqlLegacy`: the older db-agent;
  - `SqlEpic`: the EPIC agent.
- `EnumRegistry`: the enum registry and the `enum_range` splitter.
- `DbRows`: the row readers and the wafer inserts.
- `Requests`: the request-name lookup.
- `BitsManager`: the 32-bit field helper.
- `ItsText`: the comment and white-space stripper.
- `DbValue`: the tagged cell value (`MultiType`).
- `Logging`: the logger's verbosity filter and number formatters.

`Wrappers`, `Text` and `WaferDoc` hold shared definitions:

- `Option`/`Result`;
- decimal rendering as in `str()` and `std::to_string`;
- Python's `int()` and C++'s `std::stoi`;
- join and split;
- the parsed wafer-map document.

Each method that loops in the source is a method with a loop here. Its
`ensures` ties the result or the new state to a specification function.
Lemmas then prove about that function what the source promises. Objects whose
fields the source updates are classes:

- the SQL builders;
- the enum registry;
- the bit manager;
- the logger;
- the `MultiType` cell;
- the ASIC table the inserts append to.

## Model

| member | source | states |
|---|---|---|
| SentioMap.RowIndexOfKey | Utilities/GlobaltoSentioMap.py:17-23 | the row key "MapGroupsRow" followed by the decimal rendering of n is processed, with row index n |
| SentioMap.SkippedRowAddsNothing | Utilities/GlobaltoSentioMap.py:17-23 | a row whose key gives no index leaves both the coordinate map and the summary as they were |
| SentioMap.Width | Utilities/GlobaltoSentioMap.py:33-40 | a block moves the cursor by the number of its existence entries ("All" is the size of its group, 0 for an unknown group), for target and other groups alike |
| SentioMap.ExtractNkf7Coords | Utilities/GlobaltoSentioMap.py:6-93 | the coordinate map and row summary the loops build are exactly those of the row-by-row specification Nkf7Scan |
| SentioMap.ScanNextRow | Utilities/GlobaltoSentioMap.py:16-90 | one turn of the row loop extends both outputs from the first k rows to the first k+1 |
| SentioMap.ScanRow | Utilities/GlobaltoSentioMap.py:26-84 | a row's active columns are its blocks' matched columns in block order; its count is their number; the coordinate map gains one entry per active column |
| SentioMap.ScanBlock | Utilities/GlobaltoSentioMap.py:33-84 | a block contributes its matches at the cursor and returns the width the cursor advances by |
| SentioMap.ScanTargetBlock | Utilities/GlobaltoSentioMap.py:42-79 | the entry loop of a Group2/Group9 block finds exactly the block's matched columns and registers each of them |
| SentioMap.RegisterAppend | Utilities/GlobaltoSentioMap.py:76-77 | registering two runs of columns for a row one after the other is registering their concatenation |
| SentioMap.MatchesBeforeBounds | Utilities/GlobaltoSentioMap.py:61-79 | the matches among a block's first k entries are strictly increasing and lie in [cursor, cursor+k) |
| SentioMap.MatchedColumnIsPosition | Utilities/GlobaltoSentioMap.py:61-73 | column c is matched iff c-cursor is the position of an entry in the list that passes the whole filter chain (target slot, testable, in bounds, family containing "NKF7"), whatever that entry's value |
| SentioMap.RowColumnsBounds | Utilities/GlobaltoSentioMap.py:62-84 | a row's columns list is strictly increasing and every column is at least 0 and below the row's final cursor |
| SentioMap.BlockColumnsBounds | Utilities/GlobaltoSentioMap.py:58-84 | a block's matches are strictly increasing and lie within the columns it covers |
| SentioMap.AllAllBlockColumns | Utilities/GlobaltoSentioMap.py:47-73 | a block with "All" for both lists yields exactly the column cursor+t when slot t exists and its family contains "NKF7", and nothing otherwise |
| SentioMap.KeyRoundTrip | Utilities/GlobaltoSentioMap.py:76 | the key "NKF7_S_{-col}_{-row}" reads back as (col, row) |
| SentioMap.KeyInjective | Utilities/GlobaltoSentioMap.py:76 | two matches get the same key only when they share column and row |
| SentioMap.RegisterKeys | Utilities/GlobaltoSentioMap.py:76-77 | the keys after registering a row's columns are the old keys plus one key per column |
| SentioMap.RegisterValue | Utilities/GlobaltoSentioMap.py:76-77 | every registered column is stored with the value (-col, -row) |
| SentioMap.ScanWellKeyed | Utilities/GlobaltoSentioMap.py:76-77 | after any number of rows every entry's key reads back as (c, r) and its value is (-c, -r) |
| SentioMap.SummaryRows | Utilities/GlobaltoSentioMap.py:78-90 | with distinct row keys, the summary holds a row exactly when it has an outcome, with that outcome, for every prefix of the rows |
| SentioMap.SummaryOfRow | Utilities/GlobaltoSentioMap.py:86-90 | a row is in the summary iff its key is valid and it has at least one match; its entry is its columns and their count |
| SentioMapPositional.ExtractNkf7CoordsPositional | Configurations/WaferTypeMappings/GlobaltoSentioMap.py:3-59 | the earlier script's outputs are exactly those of its row-by-row specification |
| SentioMapPositional.PositionalScanRow | Configurations/WaferTypeMappings/GlobaltoSentioMap.py:26-45 | a row's active columns, their count and the registered keys are those of the specification |
| SentioMapPositional.PositionalColumnIsBlockIndex | Configurations/WaferTypeMappings/GlobaltoSentioMap.py:26-42 | c is an active column iff c is the index of a block (among the first k) that matches, whatever the widths of the blocks |
| SentioMapPositional.PositionalColumnsBounds | Configurations/WaferTypeMappings/GlobaltoSentioMap.py:38-45 | the columns are strictly increasing, at most one per block, each a block index |
| SentioMapPositional.ExistingAsicsIgnored | Configurations/WaferTypeMappings/GlobaltoSentioMap.py:26-42 | two rows whose blocks differ only in ExistingAsics (and the lists never read) give the same columns |
| SentioMapPositional.UnknownGroupNeverMatches | Configurations/WaferTypeMappings/GlobaltoSentioMap.py:28-31 | a block whose group is not in Groups is never a match |
| SentioMapPositional.PositionalScanWellKeyed | Configurations/WaferTypeMappings/GlobaltoSentioMap.py:42-43 | every stored key reads back as (c, r) with the value (-c, -r) |
| SentioMapPositional.PositionalSummaryRows | Configurations/WaferTypeMappings/GlobaltoSentioMap.py:45-53 | with distinct row keys the summary holds exactly the rows with a match, each with its columns and count |
| SentioMapPositional.PositionalMisplacesColumns | Configurations/WaferTypeMappings/GlobaltoSentioMap.py:26-45 | for a row of a 6-slot Group1 block and a 10-slot Group2 block the cursor version records column 14, the positional one column 1 |
| WaferTypeCheck.ParseRange | DB/svt-db-agent/src/SVTDbAgentDto/SvtDbWaferTypeDto.cpp:276-300 | a null or empty array is accepted and leaves the output as it was; a leading "All" gives exactly 0..gSize-1; otherwise the array is accepted iff every element is a number, and then gives them in order; a refusal leaves the output as it was |
| WaferTypeCheck.AllDialectsAgree | DB/svt-db-agent/src/SVTDbAgentDto/SvtDbWaferTypeDto.cpp:282-286 | every list the Python scripts read as "All" the C++ check reads as "All" too |
| WaferTypeCheck.AllDialectsDiffer | DB/svt-db-agent/src/SVTDbAgentDto/SvtDbWaferTypeDto.cpp:282-286 | ["All", 3] is "All" for the C++ check and not for the Python scripts |
| WaferTypeCheck.SlotPartsEmpty | DB/svt-db-agent/src/SVTDbAgentDto/SvtDbWaferTypeDto.cpp:328-347 | a slot adds no error text iff its PosInGroup is its index and its FamilyType is a known, non-empty family; such a slot has no null member, so reading it does not throw |
| WaferTypeCheck.GroupMessagesEmpty | DB/svt-db-agent/src/SVTDbAgentDto/SvtDbWaferTypeDto.cpp:325-349 | a group adds no error text iff all its slots are well formed |
| WaferTypeCheck.OkGroupsDoNotThrow | DB/svt-db-agent/src/SVTDbAgentDto/SvtDbWaferTypeDto.cpp:323-350 | when every slot of the first k groups is well formed, no member the groups loop reads in them is null, so those groups do not throw (by induction over the groups and their slots) |
| WaferTypeCheck.GroupsMessagesEmpty | DB/svt-db-agent/src/SVTDbAgentDto/SvtDbWaferTypeDto.cpp:323-350 | the Groups part adds no error text iff every group is well formed |
| WaferTypeCheck.PropertyCountOne | DB/svt-db-agent/src/SVTDbAgentDto/SvtDbWaferTypeDto.cpp:407-420 | an index is counted exactly once over the three property lists iff it is in exactly one of them |
| WaferTypeCheck.FirstAmbiguous | DB/svt-db-agent/src/SVTDbAgentDto/SvtDbWaferTypeDto.cpp:407-428 | None iff every existing index has exactly one property; otherwise the first existing index that does not |
| WaferTypeCheck.CheckWaferMap | DB/svt-db-agent/src/SVTDbAgentDto/SvtDbWaferTypeDto.cpp:303-435 | for either group lookup (the agent's, where an unknown group counts as empty, or the corrected one), the check's verdict and error text are those of the specification WaferMapVerdict under that lookup, including the TypeError of a slot with a null member |
| WaferTypeCheck.CheckGroups | DB/svt-db-agent/src/SVTDbAgentDto/SvtDbWaferTypeDto.cpp:323-350 | the groups loop stops with a type error at the first slot with a null PosInGroup or FamilyType; otherwise it scans every group, keeps going after a failure, and appends every slot's error lines in order |
| WaferTypeCheck.CheckGroup | DB/svt-db-agent/src/SVTDbAgentDto/SvtDbWaferTypeDto.cpp:325-349 | the slot loop of one group: a type error iff one of its slots has a null member, otherwise its verdict and its error lines in slot order |
| WaferTypeCheck.CheckSlot | DB/svt-db-agent/src/SVTDbAgentDto/SvtDbWaferTypeDto.cpp:328-347 | one slot: a type error iff its PosInGroup or FamilyType is null (`value` throws); otherwise its verdict and its position and family error lines, with -1 and "" for a missing member |
| WaferTypeCheck.CheckMapGroups | DB/svt-db-agent/src/SVTDbAgentDto/SvtDbWaferTypeDto.cpp:354-432 | under either group lookup, the row loop stops at the first block that is refused and reports that block |
| WaferTypeCheck.CheckRow | DB/svt-db-agent/src/SVTDbAgentDto/SvtDbWaferTypeDto.cpp:358-431 | under either group lookup, the block loop of a row stops at its first refused block; block i is reported as column i |
| WaferTypeCheck.CheckBlock | DB/svt-db-agent/src/SVTDbAgentDto/SvtDbWaferTypeDto.cpp:361-428 | one block: the group size (0 for an unknown name, as the inserting lookup gives it), then under the corrected lookup only the unknown-group refusal, then malformed list, size mismatch or the first ambiguous index, in that order |
| WaferTypeCheck.FindAmbiguous | DB/svt-db-agent/src/SVTDbAgentDto/SvtDbWaferTypeDto.cpp:410-428 | the loop over the existing indices finds the first one without exactly one property |
| WaferTypeCheck.CountProperties | DB/svt-db-agent/src/SVTDbAgentDto/SvtDbWaferTypeDto.cpp:412-419 | the number of property lists holding the index |
| WaferTypeCheck.BlockCheckPasses | DB/svt-db-agent/src/SVTDbAgentDto/SvtDbWaferTypeDto.cpp:361-428 | a block passes iff it names a group (a known one, under the corrected lookup), its four lists parse against that group's size, the existing count equals the sum of the three property counts, and every existing index has exactly one property |
| WaferTypeCheck.BlocksCheckPasses | DB/svt-db-agent/src/SVTDbAgentDto/SvtDbWaferTypeDto.cpp:358-431 | under either lookup, a row passes iff every one of its blocks does |
| WaferTypeCheck.RowsCheckPasses | DB/svt-db-agent/src/SVTDbAgentDto/SvtDbWaferTypeDto.cpp:354-432 | under either lookup, MapGroups passes iff every block of every row does |
| WaferTypeCheck.AcceptsWellFormed | DB/svt-db-agent/src/SVTDbAgentDto/SvtDbWaferTypeDto.cpp:303-435 | under either lookup, the check returns true iff Groups and MapGroups are both present, every slot is well formed and every block passes under that lookup; the error text is then left as it came in |
| WaferTypeCheck.GroupLinesAppended | DB/svt-db-agent/src/SVTDbAgentDto/SvtDbWaferTypeDto.cpp:313-350 | when no block is refused, the check gives a verdict iff no slot member is null, and then the group errors are appended (+=) to the incoming error text |
| WaferTypeCheck.BlockFailureOverwrites | DB/svt-db-agent/src/SVTDbAgentDto/SvtDbWaferTypeDto.cpp:361-428 | a refused block never lets the map through, and the outcome, a false verdict whose text replaces (=) the incoming one or the type error of a null slot member, does not depend on the incoming text |
| WaferTypeCheck.NullFamilyThrows | DB/svt-db-agent/src/SVTDbAgentDto/SvtDbWaferTypeDto.cpp:337-338 | a map whose slot has a null FamilyType ends in the type error of `value` |
| WaferTypeCheck.AbsentFamilyRefused | DB/svt-db-agent/src/SVTDbAgentDto/SvtDbWaferTypeDto.cpp:337-346 | the same map with the FamilyType missing is refused with the error line for the empty family, appended to the incoming text |
| WaferTypeCheck.AsWrittenAgreesOnKnownGroups | DB/svt-db-agent/src/SVTDbAgentDto/SvtDbWaferTypeDto.cpp:361-370 | the block check as written and the corrected one agree on every block whose group exists |
| WaferTypeCheck.UnknownGroupAccepted | DB/svt-db-agent/src/SVTDbAgentDto/SvtDbWaferTypeDto.cpp:361-370 | as written, a block naming an unknown group with no lists passes; the corrected check refuses it |
| WaferTypeCheck.UnknownGroupMapAccepted | DB/svt-db-agent/src/SVTDbAgentDto/SvtDbWaferTypeDto.cpp:303-435 | a whole map whose only block names an unknown group is accepted as written with the error text untouched, and refused with "group name ... was not found" by the corrected check |
| WaferTypeCheck.CorrectedAcceptsLess | DB/svt-db-agent/src/SVTDbAgentDto/SvtDbWaferTypeDto.cpp:361-370 | every map the corrected check accepts, the check as written accepts too |
| WaferAsics.ErrorMessage | DB/svt-db-agent/src/SVTDbAgentDto/SvtDbWaferDto.cpp:565-613 | the errors that carry a text are the malformed list, the missing quality and the empty family; the quality error names the index in decimal |
| WaferAsics.RowNumberOfKey | DB/svt-db-agent/src/SVTDbAgentDto/SvtDbWaferDto.cpp:546 | the row number of "MapGroupsRow"+n (erase the first 12 characters, std::stoi) is n for every 32-bit n |
| WaferAsics.PositionRoundTrip | DB/svt-db-agent/src/SVTDbAgentDto/SvtDbWaferDto.cpp:574-575 | the position "<row>_<col>" splits on '_' into exactly row and col |
| WaferAsics.Quality | DB/svt-db-agent/src/SVTDbAgentDto/SvtDbWaferDto.cpp:579-602 | MechanicallyDamaged iff in the damaged list; else CoveredByGreenLayer iff in the covered list; else MechanicallyInteger iff in the integer list; none (an error) otherwise |
| WaferAsics.QualityOfExactlyOne | DB/svt-db-agent/src/SVTDbAgentDto/SvtDbWaferDto.cpp:579-602 | an index in exactly one list gets that list's quality |
| WaferAsics.FamilyOf | DB/svt-db-agent/src/SVTDbAgentDto/SvtDbWaferDto.cpp:604-613 | the family is found iff the group has a slot at the index with a non-empty FamilyType, and then it is non-empty; a null FamilyType is "invalid familyType" (get_v reads it as ""), while a missing slot or member is an error of the JSON library |
| WaferAsics.EntryAsic | DB/svt-db-agent/src/SVTDbAgentDto/SvtDbWaferDto.cpp:574-620 | a created record carries the wafer id, the position "<row>_<col>" and the serial "<waferSerial>_<row>_<col>"; creation fails iff there is no quality or no family |
| WaferAsics.EntriesRun | DB/svt-db-agent/src/SVTDbAgentDto/SvtDbWaferDto.cpp:572-622 | the entry loop creates at most one record per entry, and exactly one per entry when nothing fails |
| WaferAsics.ListsOf | DB/svt-db-agent/src/SVTDbAgentDto/SvtDbWaferDto.cpp:550-570 | reading a block's four lists fails only for a missing group name or a malformed list |
| WaferAsics.BlockRun | DB/svt-db-agent/src/SVTDbAgentDto/SvtDbWaferDto.cpp:550-622 | a block that goes through creates one record per existing entry |
| WaferAsics.BlocksRun | DB/svt-db-agent/src/SVTDbAgentDto/SvtDbWaferDto.cpp:548-624 | a row that goes through creates as many records as its blocks' widths add up to |
| WaferAsics.CreateAllAsics | DB/svt-db-agent/src/SVTDbAgentDto/SvtDbWaferDto.cpp:534-628 | the error raised is that of the specification AllAsics, and the table gains exactly the records it creates up to that point, in row, block and entry order, those the insert accepts |
| WaferAsics.CreateRowAsics | DB/svt-db-agent/src/SVTDbAgentDto/SvtDbWaferDto.cpp:543-625 | one row: its error and the records appended |
| WaferAsics.CreateBlocksAsics | DB/svt-db-agent/src/SVTDbAgentDto/SvtDbWaferDto.cpp:547-624 | the block loop of a row, with asic_col starting at 0 |
| WaferAsics.CreateBlockAsics | DB/svt-db-agent/src/SVTDbAgentDto/SvtDbWaferDto.cpp:550-623 | one block: asic_col grows by the number of records it creates |
| WaferAsics.CreateEntriesAsics | DB/svt-db-agent/src/SVTDbAgentDto/SvtDbWaferDto.cpp:572-622 | the entry loop: its error, the final asic_col and the records appended |
| WaferAsics.CreateEntryAsic | DB/svt-db-agent/src/SVTDbAgentDto/SvtDbWaferDto.cpp:574-621 | one entry: either the error of EntryAsic or one record appended when the insert accepts it |
| WaferAsics.EntriesNumbered | DB/svt-db-agent/src/SVTDbAgentDto/SvtDbWaferDto.cpp:572-621 | the records of a block's entries carry consecutive columns from the block's first column |
| WaferAsics.BlockNumbered | DB/svt-db-agent/src/SVTDbAgentDto/SvtDbWaferDto.cpp:572-621 | a block's records are numbered from its first column on |
| WaferAsics.BlocksNumbered | DB/svt-db-agent/src/SVTDbAgentDto/SvtDbWaferDto.cpp:547-621 | across all blocks of a row the records are numbered 0, 1, 2, ... |
| WaferAsics.RowPositions | DB/svt-db-agent/src/SVTDbAgentDto/SvtDbWaferDto.cpp:546-621 | a row that goes through creates n records, n the total of its existing entries, the j-th at "<row>_<j>" with serial "<waferSerial>_<row>_<j>" |
| WaferAsics.KeptRecords | DB/svt-db-agent/src/SVTDbAgentDto/SvtDbWaferDto.cpp:614-620 | every created record is inserted when the wafer id is at least 0 and none otherwise; each stored record carries the wafer id |
| WaferAsics.CheckedMapErrors | DB/svt-db-agent/src/SVTDbAgentDto/SvtDbWaferDto.cpp:534-628 | after a map that checkWaferMap as written accepts (unknown groups included), the only errors left are a bad row key or a missing slot |
| WaferAsics.CheckedMapCanStillFail | DB/svt-db-agent/src/SVTDbAgentDto/SvtDbWaferDto.cpp:604-613 | a map checkWaferMap accepts, with an existing index beyond its group, still makes createAllAsics fail |
| WaferAsics.UnknownGroupFailsLater | DB/svt-db-agent/src/SVTDbAgentDto/SvtDbWaferDto.cpp:534-628 | a map whose block names an unknown group passes the check as written (and not the corrected one) and then makes createAllAsics fail with a missing slot |
| WaferRecords.InsertColumns | DB/svt-db-agent/include/SVTDb/sqlmapi.h:82-92 | the insert's column list has one double-quoted name per field, in order |
| WaferRecords.InsertValues | DB/svt-db-agent/include/SVTDb/sqlmapi.h:82-92 | the value list has one literal per field, in order |
| WaferRecords.Assignments | DB/svt-db-agent/include/SVTDb/sqlmapi.h:118-128 | the SET list has one assignment per field, in order |
| WaferRecords.CreateFields | DB/svt-db-agent/src/SVTDbAgentDto/SvtDbWaferDto.cpp:124-145 | the insert holds the four base fields first, then up to three dates, each non-empty |
| WaferRecords.CreateWaferInDB | DB/svt-db-agent/src/SVTDbAgentDto/SvtDbWaferDto.cpp:109-155 | a statement is built iff serialNumber and generalLocation are non-empty and batchNumber and waferTypeId are at least 0; it is the insert of those fields into schema.Wafer |
| WaferRecords.AddBaseFields | DB/svt-db-agent/src/SVTDbAgentDto/SvtDbWaferDto.cpp:124-127 | the four base columns and values are added in order |
| WaferRecords.AddIfSet | DB/svt-db-agent/src/SVTDbAgentDto/SvtDbWaferDto.cpp:130-145 | a date column is added only when its value is non-empty |
| WaferRecords.CreateDatePresence | DB/svt-db-agent/src/SVTDbAgentDto/SvtDbWaferDto.cpp:130-145 | each date is in the insert iff it is non-empty |
| WaferRecords.UpdateFields | DB/svt-db-agent/src/SVTDbAgentDto/SvtDbWaferDto.cpp:166-184 | at most four assignments, each of a non-empty text |
| WaferRecords.UpdateWaferInDBAsWritten | DB/svt-db-agent/src/SVTDbAgentDto/SvtDbWaferDto.cpp:158-194 | the update statement as written, with no WHERE clause |
| WaferRecords.UpdateWaferInDB | DB/svt-db-agent/src/SVTDbAgentDto/SvtDbWaferDto.cpp:158-194 | the corrected update statement, restricted to the wafer's id |
| WaferRecords.AddUpdateFields | DB/svt-db-agent/src/SVTDbAgentDto/SvtDbWaferDto.cpp:162-184 | the table and the non-empty fields are set; no WHERE clause is added |
| WaferRecords.AddAssignment | DB/svt-db-agent/src/SVTDbAgentDto/SvtDbWaferDto.cpp:166-184 | an assignment is added only for a non-empty value |
| WaferRecords.UpdateAsWrittenIgnoresId | DB/svt-db-agent/src/SVTDbAgentDto/SvtDbWaferDto.cpp:158-194 | as written the statement is the same whatever the wafer id, so it updates every wafer |
| WaferRecords.UpdateSelectsOneWafer | DB/svt-db-agent/src/SVTDbAgentDto/SvtDbWaferDto.cpp:158-194 | the corrected statements of two different wafer ids differ |
| WaferRecords.UpdateWithClause | DB/svt-db-agent/src/SVTDbAgentDto/SvtDbWaferDto.cpp:158-194 | the corrected statement is the one as written followed by WHERE "id" = id |
| WaferRecords.UpdateWafer | DB/svt-db-agent/src/SVTDbAgentDto/SvtDbWaferDto.cpp:429-484 | an unknown id fails with "Wafer with id N does not found."; no non-null date fails with "no entry to update found"; otherwise the record has the id and the given dates |
| WaferRecords.EmptyDatesSetNothing | DB/svt-db-agent/src/SVTDbAgentDto/SvtDbWaferDto.cpp:454-475 | an empty date counts as an entry to update yet adds no assignment |
| WaferRecords.UpdateOnlyGivenDates | DB/svt-db-agent/src/SVTDbAgentDto/SvtDbWaferDto.cpp:452-476 | an update touches at most the three dates, never generalLocation, and a given date is set iff it is non-empty |
| AsicDb.AsicTable.constructor | DB/svt-db-agent/src/SVTDbAgentDto/SvtDbAsicDto.cpp:114-144 | the table starts with the given rows |
| AsicDb.AsicTable.CreateAsicInDB | DB/svt-db-agent/src/SVTDbAgentDto/SvtDbAsicDto.cpp:114-144 | the insert succeeds iff waferId is at least 0 and serialNumber, familyType, waferMapPosition and quality are non-empty; the record is appended then, and nothing changes otherwise |
| AsicDb.WhereClauses | DB/svt-db-agent/src/SVTDbAgentDto/SvtDbAsicDto.cpp:38-53 | one clause for non-empty ids, one for waferId at least 0, one for a non-empty familyType, one for a non-empty quality, and no others |
| AsicDb.BuildAsicQuery | DB/svt-db-agent/src/SVTDbAgentDto/SvtDbAsicDto.cpp:26-53 | the query reads schema.Asic, the six ASIC columns, and exactly the filter clauses |
| AsicDb.AddAsicColumns | DB/svt-db-agent/src/SVTDbAgentDto/SvtDbAsicDto.cpp:31-36 | the six columns are added in order, nothing else changes |
| AsicDb.AddFilterClauses | DB/svt-db-agent/src/SVTDbAgentDto/SvtDbAsicDto.cpp:38-53 | the filter clauses are added, nothing else changes |
| AsicDb.NoFilterNoClause | DB/svt-db-agent/src/SVTDbAgentDto/SvtDbAsicDto.cpp:38-53 | without filters the query has no WHERE clause |
| AsicDb.IdsClauseFirst | DB/svt-db-agent/src/SVTDbAgentDto/SvtDbAsicDto.cpp:38-41 | with ids the first clause is "id IN (...)" over the ids |
| AsicDb.DecodeAll | DB/svt-db-agent/src/SVTDbAgentDto/SvtDbAsicDto.cpp:60-81 | one record per row, in row order |
| AsicDb.AsicsFromRows | DB/svt-db-agent/src/SVTDbAgentDto/SvtDbAsicDto.cpp:60-92 | the rows are read iff each has six cells and, with an ids filter, their number equals the number of ids |
| AsicDb.GetAllAsicsFromDB | DB/svt-db-agent/src/SVTDbAgentDto/SvtDbAsicDto.cpp:22-96 | succeeds exactly when AsicsFromRows does, and leaves the output empty on failure |
| AsicDb.PageOf | DB/svt-db-agent/src/SVTDbAgentDto/SvtDbAsicDto.cpp:179-206 | totalCount is always the full count; without a pager the items are all ASICs up to 5000 and none above; with a pager an offset beyond the total is an error, otherwise the page is the slice from offset of length min(total-offset, limit) |
| AsicDb.OffsetAtEndIsEmpty | DB/svt-db-agent/src/SVTDbAgentDto/SvtDbAsicDto.cpp:190-206 | an offset equal to the total gives an empty page, not an error |
| AsicDb.PagesConcatenate | DB/svt-db-agent/src/SVTDbAgentDto/SvtDbAsicDto.cpp:199-206 | two consecutive pages together are the contiguous slice they cover |
| AsicDb.GetAllAsics | DB/svt-db-agent/src/SVTDbAgentDto/SvtDbAsicDto.cpp:147-210 | a reply exists iff the rows are read, and its totalCount is the number of rows |
| SqlText.FormatStr | DB/svt-db-agent/src/SVTDb/sqlmapi.cpp:24 | the input wrapped in double quotes |
| SqlText.Quoted | DB/svt-db-agent/include/SVTDb/sqlmapi.h:27-30 | every name double-quoted, in order |
| SqlText.AddSchema | DB/svt-db-agent/src/SVTDb/sqlmapi.cpp:25-29 | schema, a dot, then the name |
| SqlText.Prefixed | DB/svt-db-agent/src/SVTDb/sqlmapi.cpp:52-68 | every element with the prefix in front, in order |
| SqlText.Decimals | DB/svt-db-agent/src/SVTDb/sqlmapi.cpp:166-179 | every value in decimal, in order |
| SqlText.StringJoin | DB/svt-db-agent/src/SVTDb/sqlmapi.cpp:33-47 | the loop gives the elements in order with the delimiter between consecutive ones only |
| SqlText.StringJoinPrefix | DB/svt-db-agent/src/SVTDb/sqlmapi.cpp:52-68 | the same join over the prefixed elements |
| SqlText.InClauseText | DB/svt-db-agent/src/SVTDb/sqlmapi.cpp:166-179 | the clause "col IN (v1,...,vn)" |
| SqlText.PkString | DB/svt-db-agent/include/SVTDb/sqlmapi.h:177-191 | "T1.k = T2.k" for each key, joined with " AND " |
| SqlText.PkTerms | DB/svt-db-agent/include/SVTDb/sqlmapi.h:177-191 | one term per key, in order |
| SqlText.JoinEnds | DB/svt-db-agent/src/SVTDb/sqlmapi.cpp:33-47 | a join starts with its first element and ends with its last: no leading or trailing delimiter |
| SqlText.JoinSmall | DB/svt-db-agent/src/SVTDb/sqlmapi.cpp:33-47 | no elements give "", one element gives that element |
| SqlText.DecimalHasNoComma | DB/svt-db-agent/src/SVTDb/sqlmapi.cpp:172 | a decimal rendering holds no comma |
| SqlText.InListShape | DB/svt-db-agent/src/SVTDb/sqlmapi.cpp:166-179 | the IN list splits on ',' back into the decimals and holds n-1 commas |
| SqlText.InListRoundTrip | DB/svt-db-agent/src/SVTDb/sqlmapi.cpp:166-179 | the k-th piece of the IN list reads back as the k-th value |
| SqlSvt.JsonEquals | DB/svt-db-agent/src/SVTDb/sqlmapi.cpp:145-163 | a JSON value gives one clause when it is an int or a string, and none when it is null |
| SqlSvt.SimpleQuery.constructor | DB/svt-db-agent/include/SVTDb/sqlmapi.h:20-63 | an empty query without ordering |
| SqlSvt.SimpleQuery.SetTableName | DB/svt-db-agent/include/SVTDb/sqlmapi.h:23-26 | stores the name double-quoted; nothing else changes |
| SqlSvt.SimpleQuery.AddColumn | DB/svt-db-agent/include/SVTDb/sqlmapi.h:27-30 | appends the double-quoted column; nothing else changes |
| SqlSvt.SimpleQuery.AddWhereClause | DB/svt-db-agent/include/SVTDb/sqlmapi.h:31-34 | appends the clause; nothing else changes |
| SqlSvt.SimpleQuery.AddWhereEqualsString | DB/svt-db-agent/include/SVTDb/sqlmapi.h:40-43 | appends "\"col\" = 'v'" |
| SqlSvt.SimpleQuery.AddWhereEqualsInt | DB/svt-db-agent/include/SVTDb/sqlmapi.h:44-48 | appends "\"col\" = <decimal>" |
| SqlSvt.SimpleQuery.AddWhereEqualsJson | DB/svt-db-agent/src/SVTDb/sqlmapi.cpp:145-163 | appends the int or string clause, nothing for a null value |
| SqlSvt.SimpleQuery.AddWhereIn | DB/svt-db-agent/src/SVTDb/sqlmapi.cpp:166-179 | no values add nothing, otherwise exactly one IN clause |
| SqlSvt.SimpleQuery.SetOrderById | DB/svt-db-agent/include/SVTDb/sqlmapi.h:56 | sets the ordering flag only |
| SqlSvt.SimpleQuery.QueryString | DB/svt-db-agent/src/SVTDb/sqlmapi.cpp:128-142 | "SELECT cols FROM schema.table", then " WHERE c1 AND ..." only with clauses and " ORDER BY id " only with the flag |
| SqlSvt.SimpleInsert.constructor | DB/svt-db-agent/include/SVTDb/sqlmapi.h:69-103 | an empty insert whose column and value lists are aligned |
| SqlSvt.SimpleInsert.SetTableName | DB/svt-db-agent/include/SVTDb/sqlmapi.h:72-75 | stores the name double-quoted |
| SqlSvt.SimpleInsert.AddColumnAndValueString | DB/svt-db-agent/include/SVTDb/sqlmapi.h:82-87 | appends one quoted column and one single-quoted value, keeping the lists aligned |
| SqlSvt.SimpleInsert.AddColumnAndValueInt | DB/svt-db-agent/include/SVTDb/sqlmapi.h:88-92 | appends one quoted column and one decimal value, keeping the lists aligned |
| SqlSvt.SimpleInsert.AddColumnAndValueJson | DB/svt-db-agent/src/SVTDb/sqlmapi.cpp:215-233 | appends a column and value for an int or string, nothing for null, keeping the lists aligned |
| SqlSvt.SimpleInsert.InsertString | DB/svt-db-agent/src/SVTDb/sqlmapi.cpp:204-212 | "INSERT INTO schema.table (cols) VALUES(vals)" |
| SqlSvt.SimpleUpdate.constructor | DB/svt-db-agent/include/SVTDb/sqlmapi.h:105-157 | an empty update |
| SqlSvt.SimpleUpdate.SetTableName | DB/svt-db-agent/include/SVTDb/sqlmapi.h:108-111 | stores the name double-quoted |
| SqlSvt.SimpleUpdate.AddColumnAndValueString | DB/svt-db-agent/include/SVTDb/sqlmapi.h:118-123 | appends the assignment "\"col\" = 'v'" |
| SqlSvt.SimpleUpdate.AddColumnAndValueInt | DB/svt-db-agent/include/SVTDb/sqlmapi.h:124-128 | appends the assignment "\"col\" = <decimal>" |
| SqlSvt.SimpleUpdate.AddColumnAndValueJson | DB/svt-db-agent/src/SVTDb/sqlmapi.cpp:249-267 | appends an assignment for an int or string, nothing for null |
| SqlSvt.SimpleUpdate.AddWhereEqualsString | DB/svt-db-agent/include/SVTDb/sqlmapi.h:138-141 | appends the string where-clause |
| SqlSvt.SimpleUpdate.AddWhereEqualsInt | DB/svt-db-agent/include/SVTDb/sqlmapi.h:142-146 | appends the int where-clause |
| SqlSvt.SimpleUpdate.AddWhereEqualsJson | DB/svt-db-agent/src/SVTDb/sqlmapi.cpp:270-288 | appends a where-clause for an int or string, nothing for null |
| SqlSvt.SimpleUpdate.UpdateString | DB/svt-db-agent/src/SVTDb/sqlmapi.cpp:236-246 | "UPDATE schema.table SET a1, ..." with " WHERE ..." only when there are clauses |
| SqlSvt.VersionedQuery.constructor | DB/svt-db-agent/include/SVTDb/sqlmapi.h:163-192 | an empty versioned query with no keys |
| SqlSvt.VersionedQuery.AddPrimaryKey | DB/svt-db-agent/include/SVTDb/sqlmapi.h:166-169 | appends the key |
| SqlSvt.VersionedQuery.SetVersionId | DB/svt-db-agent/include/SVTDb/sqlmapi.h:170 | stores the version id |
| SqlSvt.VersionedQuery.QueryString | DB/svt-db-agent/src/SVTDb/sqlmapi.cpp:295-325 | the base/diff version query; none without a primary key |
| SqlSvt.VersionedInsert.constructor | DB/svt-db-agent/include/SVTDb/sqlmapi.h:194-227 | an empty insert and an empty lookup query |
| SqlSvt.VersionedInsert.SetVersionId | DB/svt-db-agent/include/SVTDb/sqlmapi.h:197-201 | records the id and adds a VERSION_ID column with its value |
| SqlSvt.VersionedInsert.AddColumnAndValueString | DB/svt-db-agent/include/SVTDb/sqlmapi.h:207-212 | one insert column, quoted twice, and one matching where-clause on the lookup query |
| SqlSvt.VersionedInsert.AddColumnAndValueInt | DB/svt-db-agent/include/SVTDb/sqlmapi.h:213-217 | the same for an int value |
| SqlSvt.VersionedInsert.DoInsert | DB/svt-db-agent/src/SVTDb/sqlmapi.cpp:328-352 | the lookup counts the rows of the base version; the insert is issued only when that count is 0 |
| SqlSvt.QueryTextExtends | DB/svt-db-agent/src/SVTDb/sqlmapi.cpp:128-142 | every query starts with its bare SELECT ... FROM part, equals it without clauses and ordering, and ends with " ORDER BY id " when ordered |
| SqlLegacy.SimpleQuery.constructor | DB/db-agent/include/SVTDb/sqlmapi.h:62-92 | an empty query |
| SqlLegacy.SimpleQuery.SetTableName | DB/db-agent/include/SVTDb/sqlmapi.h:65 | stores the name verbatim, unquoted |
| SqlLegacy.SimpleQuery.AddColumn | DB/db-agent/include/SVTDb/sqlmapi.h:66 | appends the column verbatim |
| SqlLegacy.SimpleQuery.AddWhereClause | DB/db-agent/include/SVTDb/sqlmapi.h:67-70 | appends the clause |
| SqlLegacy.SimpleQuery.AddWhereEqualsString | DB/db-agent/include/SVTDb/sqlmapi.h:74-77 | appends "col = 'v'" |
| SqlLegacy.SimpleQuery.AddWhereEqualsInt | DB/db-agent/include/SVTDb/sqlmapi.h:78-81 | appends "col = <decimal>" |
| SqlLegacy.SimpleInsert.constructor | DB/db-agent/include/SVTDb/sqlmapi.h:98-127 | an empty, aligned insert |
| SqlLegacy.SimpleInsert.SetTableName | DB/db-agent/include/SVTDb/sqlmapi.h:101 | stores the name verbatim |
| SqlLegacy.SimpleInsert.AddColumnAndValueString | DB/db-agent/include/SVTDb/sqlmapi.h:106-111 | appends exactly one name and one single-quoted value, keeping the lists aligned |
| SqlLegacy.SimpleInsert.AddColumnAndValueInt | DB/db-agent/include/SVTDb/sqlmapi.h:112-116 | appends exactly one name and one decimal value, keeping the lists aligned |
| SqlLegacy.VersionedQuery.constructor | DB/db-agent/include/SVTDb/sqlmapi.h:133-159 | an empty versioned query |
| SqlLegacy.VersionedQuery.AddPrimaryKey | DB/db-agent/include/SVTDb/sqlmapi.h:136 | appends the key |
| SqlLegacy.VersionedQuery.SetVersionId | DB/db-agent/include/SVTDb/sqlmapi.h:137 | stores the version id |
| SqlLegacy.VersionedQuery.GetPkString | DB/db-agent/include/SVTDb/sqlmapi.h:144-158 | "T1.k = T2.k" terms joined with " AND " |
| SqlLegacy.VersionedInsert.constructor | DB/db-agent/include/SVTDb/sqlmapi.h:161-194 | an empty insert and lookup query |
| SqlLegacy.VersionedInsert.SetVersionId | DB/db-agent/include/SVTDb/sqlmapi.h:164-168 | stores the id and adds a VERSION_ID column |
| SqlLegacy.VersionedInsert.AddColumnAndValueString | DB/db-agent/include/SVTDb/sqlmapi.h:174-179 | one insert column and one matching where-clause |
| SqlLegacy.VersionedInsert.AddColumnAndValueInt | DB/db-agent/include/SVTDb/sqlmapi.h:180-184 | one insert column and one matching where-clause |
| SqlEpic.QueryString | DB/epic-db-agent/src/EpicDb/sqlmapi.cpp:115-125 | "SELECT cols FROM t [WHERE ...]", with no schema and no ordering |
| SqlEpic.AddWhereIn | DB/epic-db-agent/src/EpicDb/sqlmapi.cpp:128-141 | no clause for empty values, otherwise one IN clause |
| SqlEpic.InsertString | DB/epic-db-agent/src/EpicDb/sqlmapi.cpp:166-174 | "INSERT INTO t (cols) VALUES(vals)" |
| SqlEpic.VersionedQueryString | DB/epic-db-agent/src/EpicDb/sqlmapi.cpp:181-211 | the versioned query text; none without a primary key |
| SqlEpic.QueryTextShape | DB/epic-db-agent/src/EpicDb/sqlmapi.cpp:115-125 | the query starts with its bare part and equals it exactly when there are no clauses |
| SqlEpic.VersionedQueryEnds | DB/epic-db-agent/src/EpicDb/sqlmapi.cpp:192-208 | the versioned query ends with "WHERE T2.<first key> IS NULL" |
| EnumRegistry.BelowIrreflexive | DB/svt-db-agent/include/SVTDbAgentService/SvtDbAgentEnum.h:56 | no key sorts before itself in std::string order |
| EnumRegistry.BelowTransitive | DB/svt-db-agent/include/SVTDbAgentService/SvtDbAgentEnum.h:56 | std::string order is transitive |
| EnumRegistry.BelowTotal | DB/svt-db-agent/include/SVTDbAgentService/SvtDbAgentEnum.h:56 | of two different keys one sorts first |
| EnumRegistry.AscendingDetermined | DB/svt-db-agent/include/SVTDbAgentService/SvtDbAgentEnum.h:23-34 | two ascending key lists with the same keys are equal, so the map's key order is fixed by its keys |
| EnumRegistry.AddedLookup | DB/svt-db-agent/include/SVTDbAgentService/SvtDbAgentEnum.h:19-22 | after adding v to t, t's list is one longer and ends with v, the type set gains t, and the other types are unchanged |
| EnumRegistry.AddedKeepsNonEmpty | DB/svt-db-agent/include/SVTDbAgentService/SvtDbAgentEnum.h:19-22 | every registered type keeps a non-empty list |
| EnumRegistry.AddedTwiceKeepsDuplicates | DB/svt-db-agent/include/SVTDbAgentService/SvtDbAgentEnum.h:19-22 | adding the same value twice keeps both copies |
| EnumRegistry.Registry.constructor | DB/svt-db-agent/include/SVTDbAgentService/SvtDbAgentEnum.h:55-56 | an empty registry |
| EnumRegistry.Registry.AddValue | DB/svt-db-agent/include/SVTDbAgentService/SvtDbAgentEnum.h:19-22 | the map after the call is the old map with v appended to t's list, t's list created if absent |
| EnumRegistry.Registry.GetTypeNames | DB/svt-db-agent/include/SVTDbAgentService/SvtDbAgentEnum.h:23-34 | every registered type exactly once, in ascending order |
| EnumRegistry.Registry.ValuesReply | DB/svt-db-agent/src/SVTDbAgentDto/SvtDbEnumDto.cpp:165-191 | the reply built by the loop over the requested types |
| EnumRegistry.Registry.GetAllEnumValues | DB/svt-db-agent/src/SVTDbAgentDto/SvtDbEnumDto.cpp:153-162 | the requested types, or all registered types in ascending order when "enumNames" is absent; each entry holds the type's values, empty for an unknown type |
| EnumRegistry.CopyValues | DB/svt-db-agent/src/SVTDbAgentDto/SvtDbEnumDto.cpp:176-179 | the values are pushed in order |
| EnumRegistry.Smallest | DB/svt-db-agent/include/SVTDbAgentService/SvtDbAgentEnum.h:26-32 | the first key in map order: below every other key |
| EnumRegistry.Keys | DB/svt-db-agent/src/SVTDbAgentDto/SvtDbEnumDto.cpp:172-180 | one key per reply entry |
| EnumRegistry.Put | DB/svt-db-agent/src/SVTDbAgentDto/SvtDbEnumDto.cpp:175 | data[type] = array: every entry afterwards is the new one or an old one |
| EnumRegistry.PutKeys | DB/svt-db-agent/src/SVTDbAgentDto/SvtDbEnumDto.cpp:175 | a known key keeps its place; a new key goes last |
| EnumRegistry.AscendingDistinct | DB/svt-db-agent/include/SVTDbAgentService/SvtDbAgentEnum.h:23-34 | an ascending list has no repeated type |
| EnumRegistry.ReplyEntries | DB/svt-db-agent/src/SVTDbAgentDto/SvtDbEnumDto.cpp:173-180 | the reply has exactly the requested types, each once, each with its registered values |
| EnumRegistry.ReplyKeysOfDistinct | DB/svt-db-agent/src/SVTDbAgentDto/SvtDbEnumDto.cpp:173-180 | for distinct requested types the reply's keys are those types in order |
| EnumRegistry.FindFrom | DB/svt-db-agent/src/SVTDbAgentDto/SvtDbEnumDto.cpp:71-76 | the first occurrence of the character from a given index, or none |
| EnumRegistry.FindLast | DB/svt-db-agent/src/SVTDbAgentDto/SvtDbEnumDto.cpp:67 | the last occurrence of the character, or none |
| EnumRegistry.Opening | DB/svt-db-agent/src/SVTDbAgentDto/SvtDbEnumDto.cpp:66 | just past the first '{', or 0 without one |
| EnumRegistry.EnumBody | DB/svt-db-agent/src/SVTDbAgentDto/SvtDbEnumDto.cpp:66-67 | the text between the first '{' and the last '}' exists iff a '}' follows the opening |
| EnumRegistry.SplitEnumRange | DB/svt-db-agent/src/SVTDbAgentDto/SvtDbEnumDto.cpp:62-78 | the start/end loop gives the body's pieces between commas |
| EnumRegistry.SplitOnCommas | DB/svt-db-agent/src/SVTDbAgentDto/SvtDbEnumDto.cpp:69-78 | the loop gives exactly the split on ',' |
| EnumRegistry.EnumValuesCount | DB/svt-db-agent/src/SVTDb/SvtDbInterface.cpp:31-50 | one value more than the body has commas, so at least one |
| EnumRegistry.EnumValuesJoin | DB/svt-db-agent/src/SVTDbAgentDto/SvtDbEnumDto.cpp:69-78 | joining the values with ',' gives back the text between the braces |
| EnumRegistry.EmptyBraces | DB/svt-db-agent/src/SVTDbAgentDto/SvtDbEnumDto.cpp:66-78 | "{}" gives [""] |
| EnumRegistry.EnumValuesRoundTrip | DB/epic-db-agent/src/EpicDb/EpicDbInterface.cpp:25-41 | values without commas, written as "{v1,...,vn}", are read back exactly |
| EnumRegistry.TypesInSchema | DB/svt-db-agent/src/SVTDbAgentDto/SvtDbEnumDto.cpp:34-40 | at most one type name per catalogue row |
| EnumRegistry.TypesInSchemaAppend | DB/svt-db-agent/src/SVTDbAgentDto/SvtDbEnumDto.cpp:34-40 | the names of two runs of rows are the names of each, in row order |
| EnumRegistry.TypesInSchemaOne | DB/svt-db-agent/src/SVTDbAgentDto/SvtDbEnumDto.cpp:36-39 | a row of the schema gives its type name, a row of another schema none |
| EnumRegistry.TypesInSchemaBroken | DB/svt-db-agent/src/SVTDbAgentDto/SvtDbEnumDto.cpp:43-47 | once a row throws, the whole read fails |
| EnumRegistry.GetAllEnumTypesInDB | DB/svt-db-agent/src/SVTDbAgentDto/SvtDbEnumDto.cpp:20-49 | the loop keeps, in row order, the names whose schema matches; the output is cleared where the program throws |
| DbRows.AllDecoded | DB/svt-db-agent/src/SVTDb/SvtDbInterface.cpp:86-117 | all items decoded iff each one is, in order |
| DbRows.PlaceholderNamesId | DB/svt-db-agent/src/SVTDb/SvtDbInterface.cpp:96 | a placeholder "<prefix><id>" determines the id |
| DbRows.VersionRowRoundTrip | DB/svt_db/src/SVTDb/svtdb_if.cpp:20-49 | a version written as a full row is read back unchanged |
| DbRows.VersionDefaults | DB/svt_db/src/SVTDb/svtdb_if.cpp:24-47 | a row with only an id reads as name "NONAME_ID<id>", baseVersion -1 and description "Empty" |
| DbRows.VersionReadsFourCells | DB/svt_db/src/SVTDb/svtdb_if.cpp:22-47 | only the first four cells are read |
| DbRows.UnnamedVersionsDistinct | DB/svt-db-agent/src/SVTDb/SvtDbInterface.cpp:90-97 | two unnamed versions with different ids get different names |
| DbRows.GetAllVersions | DB/svt_db/src/SVTDb/svtdb_if.cpp:5-52 | the output is cleared, then one record per row in row order, and the count returned is the number of records |
| DbRows.BuildWaferQuery | DB/svt-db-agent/src/SVTDb/SvtDbInterface.cpp:255-267 | reads schema.Wafer, all wafer columns, with an id IN clause only for a non-empty filter |
| DbRows.GetAllSvtWafers | DB/svt-db-agent/src/SVTDb/SvtDbInterface.cpp:269-305 | the wafers decoded and their count |
| DbRows.SvtWaferRoundTrip | DB/svt-db-agent/src/SVTDb/SvtDbInterface.cpp:280-294 | a wafer written as a full row is read back, generalLocation aside |
| DbRows.SvtBadRowClears | DB/svt-db-agent/src/SVTDb/SvtDbInterface.cpp:276-279 | one row of the wrong width empties the whole result |
| DbRows.SvtWafersPrefix | DB/svt-db-agent/src/SVTDb/SvtDbInterface.cpp:274-297 | the wafers of two runs of readable rows are those of each, in order |
| DbRows.GetAllEpicWafers | DB/epic-db-agent/src/EpicDb/EpicDbInterface.cpp:186-267 | one record per row in order, and their count |
| DbRows.EpicPlaceholdersNotEmpty | DB/epic-db-agent/src/EpicDb/EpicDbInterface.cpp:192-236 | a missing serial number, engineering run, foundry or technology becomes a non-empty placeholder |
| DbRows.UnserialedWafersDistinct | DB/epic-db-agent/src/EpicDb/EpicDbInterface.cpp:192-200 | wafers without a serial number get distinct placeholders "NO_SERIAL_NUMBER_<id>" |
| DbRows.EpicNullIdFails | DB/epic-db-agent/src/EpicDb/EpicDbInterface.cpp:190 | a row with a null id makes the read fail |
| DbRows.SvtInsertPresence | DB/svt-db-agent/src/SVTDb/SvtDbInterface.cpp:317-337 | each string column is in the insert iff it is non-empty, batchNumber iff at least 0, and no other column is |
| DbRows.SvtInsertExtremes | DB/svt-db-agent/src/SVTDb/SvtDbInterface.cpp:317-337 | a full wafer gives all five columns in their fixed order; an empty one gives none |
| DbRows.FieldsConcat | DB/svt-db-agent/src/SVTDb/SvtDbInterface.cpp:317-337 | the columns and values of two runs of fields are those of each |
| DbRows.InsertWafer | DB/svt-db-agent/src/SVTDb/SvtDbInterface.cpp:309-346 | the insert statement of the chosen fields into schema.Wafer; the call never returns false: when the database executes it, it commits and returns true, and when the database refuses it, the database's message is thrown (raiseError) with no rollback |
| DbRows.AddFields | DB/svt-db-agent/src/SVTDb/SvtDbInterface.cpp:317-337 | the fields' columns and values are appended in order |
| DbRows.EpicInsertPresence | DB/epic-db-agent/src/EpicDb/EpicDbInterface.cpp:118-135 | serialNumber, engineeringRun and foundry are in the insert iff non-empty, batchNumber iff at least 0 |
| DbRows.EpicInsertPresenceLate | DB/epic-db-agent/src/EpicDb/EpicDbInterface.cpp:136-154 | technology, thinningDate, dicingDate and waferType are in the insert iff non-empty |
| DbRows.EpicInsertNothingUnset | DB/epic-db-agent/src/EpicDb/EpicDbInterface.cpp:118-154 | no empty string and no negative batch number is ever inserted |
| DbRows.EpicReadBackWritesTexts | DB/epic-db-agent/src/EpicDb/EpicDbInterface.cpp:186-262 | a wafer read from a row with only an id writes back its seven placeholder texts and no batch number |
| Requests.Name | DB/svt-db-agent/include/SVTDbAgentService/SvtDbAgentRequest.h:26-32 | the name of a type is its entry in the table |
| Requests.FirstMatch | DB/svt-db-agent/src/SVTDbAgentService/SvtDbAgentRequest.cpp:13-20 | the type of a table entry whose name equals the text exactly, or NotFound when no name does |
| Requests.NamesDistinct | DB/svt-db-agent/include/SVTDbAgentService/SvtDbAgentRequest.h:26-32 | two types share a name iff they are the same type |
| Requests.LookupOfName | DB/svt-db-agent/src/SVTDbAgentService/SvtDbAgentRequest.cpp:11-21 | every type's own name looks that type up |
| Requests.LookupFindsOnlyNames | DB/svt-db-agent/src/SVTDbAgentService/SvtDbAgentRequest.cpp:13-20 | a type other than NotFound is returned only for its own name; a text that is nobody's name gives NotFound |
| Requests.CaseSensitive | DB/svt-db-agent/src/SVTDbAgentService/SvtDbAgentRequest.cpp:15 | "getAllEnums" is not a request; "GetAllEnums" is |
| BitsManager.DisjointAddIsOr | DB/svt_db/src/SVTUtilities/ItsBitsManager.cpp:30 | adding two words with no common bit is their bitwise or |
| BitsManager.SubtractFromAllOnes | DB/db-agent/include/SVTUtilities/ItsBitsManager.h:21 | 0xffffffff - x is ~x |
| BitsManager.OneShiftedMinusOne | DB/db-agent/include/SVTUtilities/ItsBitsManager.h:21 | (1 << n) - 1 has exactly the n low bits set |
| BitsManager.CleanerWordIsFieldComplement | DB/db-agent/include/SVTUtilities/ItsBitsManager.h:21 | within the word the cleaner word is 0 exactly on the field's bits |
| BitsManager.ExtractReadsField | DB/svt_db/src/SVTUtilities/ItsBitsManager.cpp:10-15 | the extraction gives bits [position, position+bitNumber) moved down to bit 0 |
| BitsManager.AddendsDisjoint | DB/svt_db/src/SVTUtilities/ItsBitsManager.cpp:30 | the two addends share no bit, so the + acts as | |
| BitsManager.ModifySplices | DB/svt_db/src/SVTUtilities/ItsBitsManager.cpp:17-31 | the modification writes the new term's low bits into the field and keeps every other bit |
| BitsManager.ModifyKeepsOtherBits | DB/svt_db/src/SVTUtilities/ItsBitsManager.cpp:28-31 | a bit outside the field is unchanged |
| BitsManager.ExtractAfterModify | DB/svt_db/src/SVTUtilities/ItsBitsManager.cpp:10-24 | extracting right after a modify gives the new term modulo 2^bitNumber |
| BitsManager.ItsBitsManager.constructor | DB/db-agent/include/SVTUtilities/ItsBitsManager.h:8-14 | every field starts at 0 |
| BitsManager.ItsBitsManager.ShiftNewTerm | DB/db-agent/include/SVTUtilities/ItsBitsManager.h:20 | NewTerm shifted left by Position; nothing else changes |
| BitsManager.ItsBitsManager.SetClWord | DB/db-agent/include/SVTUtilities/ItsBitsManager.h:21 | sets the cleaner word of the current field; nothing else changes |
| BitsManager.ItsBitsManager.SetCleanerWord | DB/db-agent/include/SVTUtilities/ItsBitsManager.h:22 | sets the given cleaner word; nothing else changes |
| BitsManager.ItsBitsManager.ExtractFromUInt32 | DB/svt_db/src/SVTUtilities/ItsBitsManager.cpp:10-15 | records position and width, sets the cleaner word, and returns the field's value |
| BitsManager.ItsBitsManager.ApplyOperation | DB/svt_db/src/SVTUtilities/ItsBitsManager.cpp:28-35 | operation 0 or 2 splices the new term in, 1 or 2 shifts by NShift, any other leaves the word |
| BitsManager.ItsBitsManager.ModifyUInt32 | DB/svt_db/src/SVTUtilities/ItsBitsManager.cpp:17-24 | the word with the field replaced by the new element's low bits, the state set for operation 0 |
| BitsManager.Unpack | DB/svt_db/src/SVTUtilities/ItsBitsManager.cpp:45-50 | four bytes |
| BitsManager.UnpackPack | DB/svt_db/src/SVTUtilities/ItsBitsManager.cpp:37-50 | packing four bytes and unpacking gives them back |
| BitsManager.PackUnpack | DB/svt_db/src/SVTUtilities/ItsBitsManager.cpp:37-50 | unpacking a word and packing gives it back |
| BitsManager.UInt8ToUInt32 | DB/svt_db/src/SVTUtilities/ItsBitsManager.cpp:37-43 | the big-endian word of the first four bytes: byte 0 is the most significant |
| BitsManager.UnpackByte | DB/svt_db/src/SVTUtilities/ItsBitsManager.cpp:45-50 | byte k is the word shifted right by 8*(3-k), truncated |
| BitsManager.UInt32ToUInt8 | DB/svt_db/src/SVTUtilities/ItsBitsManager.cpp:45-50 | writes the word's four big-endian bytes and leaves the rest of the buffer |
| BitsManager.RoundTrip | DB/svt_db/src/SVTUtilities/ItsBitsManager.cpp:37-50 | writing a word to bytes and reading it back gives the word |
| BitsManager.Lp64ModifyClearsBitsBelowField | DB/db-agent/include/SVTUtilities/ItsBitsManager.h:21 | with a 64-bit unsigned long the modification clears every bit below the field |
| BitsManager.Lp64Example | DB/db-agent/include/SVTUtilities/ItsBitsManager.h:21 | writing 0 into bits 4-7 of 0xffffffff clears bit 0 with the 64-bit rotation and keeps it with the 32-bit one |
| ItsText.BeforeComment | DB/svt_db/src/SVTUtilities/ItsUtility.cpp:23-26 | the longest prefix without '#': the text stops just before its first '#' |
| ItsText.WithoutExcludes | DB/svt_db/src/SVTUtilities/ItsUtility.cpp:17-21 | no dropped character is left |
| ItsText.WithoutKeeps | DB/svt_db/src/SVTUtilities/ItsUtility.cpp:17-21 | every kept character is left |
| ItsText.WithoutNothingToDrop | DB/svt_db/src/SVTUtilities/ItsUtility.cpp:17-21 | a text with nothing to drop is left as it is |
| ItsText.WithoutAppend | DB/svt_db/src/SVTUtilities/ItsUtility.cpp:17-21 | filtering a concatenation filters each part |
| ItsText.WithoutTwice | DB/svt_db/src/SVTUtilities/ItsUtility.cpp:17-21 | two remove_if passes drop what either drops |
| ItsText.BeforeCommentAtFind | DB/svt_db/src/SVTUtilities/ItsUtility.cpp:23-26 | the prefix is text.substr(0, text.find("#")), and the whole text without a '#' |
| ItsText.RemoveComments | DB/svt_db/src/SVTUtilities/ItsUtility.cpp:23-26 | the text cut at its first '#' |
| ItsText.RemoveIf | DB/svt_db/src/SVTUtilities/ItsUtility.cpp:19-20 | std::remove_if: the kept characters move to the front in order and the rest of the buffer is untouched |
| ItsText.RemoveWhiteSpaces | DB/svt_db/src/SVTUtilities/ItsUtility.cpp:17-21 | exactly the visible characters before the first '#', in their order |
| ItsText.BeforeCommentIdempotent | DB/svt_db/src/SVTUtilities/ItsUtility.cpp:23-26 | removeComments is idempotent and leaves a text without '#' unchanged |
| ItsText.CleanedIsClean | DB/svt_db/src/SVTUtilities/ItsUtility.cpp:17-21 | no '#', white space or control character is left |
| ItsText.WithoutIsSubset | DB/svt_db/src/SVTUtilities/ItsUtility.cpp:17-21 | every character left was in the text |
| ItsText.CleanedKeepsVisible | DB/svt_db/src/SVTUtilities/ItsUtility.cpp:17-21 | every visible character before the first '#' survives |
| ItsText.CleanedIdempotent | DB/svt_db/src/SVTUtilities/ItsUtility.cpp:17-21 | removeWhiteSpaces is idempotent |
| DbValue.Value.GetInt | DB/svt-db-agent/src/Database/multitype.cpp:33-42 | the value of an int cell, 0 for a string cell |
| DbValue.Value.GetString | DB/svt-db-agent/src/Database/multitype.cpp:54-67 | the text of a string cell; for an int cell a decimal rendering that reads back as the int |
| DbValue.MultiType.constructor | DB/svt-db-agent/src/Database/multitype.cpp:3-7 | stores its argument |
| DbValue.MultiType.Get | DB/svt-db-agent/src/Database/multitype.cpp:14-18 | the stored value |
| DbValue.MultiType.Set | DB/svt-db-agent/src/Database/multitype.cpp:20-25 | stores the value and returns it |
| DbValue.SetThenGet | DB/svt-db-agent/src/Database/multitype.cpp:14-25 | a read after a store gives the stored value, and the kind never changes |
| Logging.VerbosityFromEnvironment | DB/svt-db-agent/src/SVTUtilities/SvtLogger.cpp:37-50 | STANDARD when unset; otherwise the first of STANDARD, VERBOSE, ALL the value contains, STANDARD when none |
| Logging.AdmittedMonotone | DB/svt-db-agent/src/SVTUtilities/SvtLogger.cpp:80 | raising a verbosity never silences a message |
| Logging.DefaultSeverities | DB/epic-db-agent/include/EpicUtilities/EpicLogger.h:30-39 | errors always pass; at STANDARD/STANDARD warnings and infos do not; with either verbosity at ALL they do |
| Logging.NextMsgId | DB/svt-db-agent/src/SVTUtilities/SvtLogger.cpp:128 | `msgId_++` on a 32-bit unsigned counter: one more, and 0 after 2^32 - 1 |
| Logging.SvtLogger.constructor | DB/svt-db-agent/src/SVTUtilities/SvtLogger.cpp:11-53 | both verbosities from the environment, message id 0 |
| Logging.SvtLogger.SetLogVerbosityFile | DB/svt-db-agent/src/SVTUtilities/SvtLogger.cpp:63-75 | refuses a value above ALL and changes nothing; otherwise sets the file verbosity and returns true |
| Logging.SvtLogger.Log | DB/svt-db-agent/src/SVTUtilities/SvtLogger.cpp:111-158 | takes the next message id (NextMsgId); goes to the file within the file verbosity when it can be opened, and to the console within the console verbosity unless the file was needed and failed |
| Logging.SvtLogger.Report | DB/svt-db-agent/src/SVTUtilities/SvtLogger.cpp:78-107 | a message reaches log iff its severity is within either verbosity |
| Logging.HexDigitValue | DB/svt-db-agent/src/SVTUtilities/SvtLogger.cpp:164 | a hex digit's value is below 16 |
| Logging.Pow16 | DB/svt-db-agent/src/SVTUtilities/SvtLogger.cpp:164 | a positive power of 16 |
| Logging.Hex | DB/svt-db-agent/src/SVTUtilities/SvtLogger.cpp:164 | n upper-case hex digits |
| Logging.HexValueOfHex | DB/svt-db-agent/src/SVTUtilities/SvtLogger.cpp:164 | the n digits read back as the value |
| Logging.ToHex | DB/svt-db-agent/src/SVTUtilities/SvtLogger.cpp:161-167 | "0x" and exactly 8 upper-case hex digits, 10 characters |
| Logging.ToHexRoundTrip | DB/svt-db-agent/src/SVTUtilities/SvtLogger.cpp:161-167 | the digits read back as the value, so different values give different texts |
| Logging.ZerosValue | DB/svt-db-agent/src/SVTUtilities/SvtLogger.cpp:193 | padding zeros are worth 0 |
| Logging.LeadingZerosValue | DB/svt-db-agent/src/SVTUtilities/SvtLogger.cpp:193 | leading zeros do not change a decimal's value |
| Logging.ToDec | DB/svt-db-agent/src/SVTUtilities/SvtLogger.cpp:190-195 | decimal digits worth the value, zero-padded on the left to max(8, the plain rendering's length) characters |
| Logging.SpacedIsJoin | DB/svt-db-agent/src/SVTUtilities/SvtLogger.cpp:170-177 | " " followed by each part and a " " is the join of "", the parts and "" with spaces |
| Logging.SpacedSplits | DB/svt-db-agent/src/SVTUtilities/SvtLogger.cpp:170-177 | parts without spaces can be split back out |
| Logging.HexParts | DB/svt-db-agent/src/SVTUtilities/SvtLogger.cpp:174-175 | each element in hex, in order |
| Logging.DecParts | DB/svt-db-agent/src/SVTUtilities/SvtLogger.cpp:202-203 | each element in zero-padded decimal, in order |
| Logging.AsUInt32 | DB/svt-db-agent/src/SVTUtilities/SvtLogger.cpp:185 | an int converted to uint32: itself when non-negative, plus 2^32 when negative |
| Logging.AsUInt32s | DB/svt-db-agent/src/SVTUtilities/SvtLogger.cpp:184-185 | each int converted, in order |
| Logging.ToHexVector | DB/svt-db-agent/src/SVTUtilities/SvtLogger.cpp:170-177 | " " then each element's hex and a " ", in order |
| Logging.ToHexIntVector | DB/svt-db-agent/src/SVTUtilities/SvtLogger.cpp:180-187 | the same over each int's uint32 two's-complement value |
| Logging.ToDecVector | DB/svt-db-agent/src/SVTUtilities/SvtLogger.cpp:198-205 | " " then each element's decimal and a " ", in order |
| Logging.NoSpaceInHex | DB/svt-db-agent/src/SVTUtilities/SvtLogger.cpp:161-167 | a hex text holds no space |
| Logging.HexVectorSplits | DB/svt-db-agent/src/SVTUtilities/SvtLogger.cpp:170-177 | the text has 1+11n characters and splits on ' ' into "", the n hex texts and "" |
| Logging.HexSpacedLength | DB/svt-db-agent/src/SVTUtilities/SvtLogger.cpp:170-177 | the text has 1+11n characters |
| Logging.DecVectorSplits | DB/svt-db-agent/src/SVTUtilities/SvtLogger.cpp:198-205 | the text splits on ' ' into "", the decimal texts and "" |

## Left out

- Kafka service plumbing, threads, timers and sleep/poll loops are not modelled.
- The database connection is not modelled. This covers query execution, `doGenericQuery`'s retry loop, commit and rollback, `getBaseVersion`, `getMaxId` and `checkIdExist`.
  - Query results are parameters (rows of optional cells).
  - The base version and the id-exists answer are parameters.
  - Whether an insert is accepted is a parameter.
- JSON parsing and the reply-message assembly are not modelled. The wafer map and the messages are parsed datatypes.
  - `get_v` and a JSON null for a list field are read as an absent list.
  - The missing "id" or "update" object of `updateWafer` (SvtDbWaferDto.cpp:433-440) is not modelled, because the request is a parsed record.
- `addEnumValueInDB`/`addEnumValue` only build an `ALTER TYPE` command and commit or roll back, so they are left out with the database.
- `getAllEnumValuesInDB` and `SvtDbInterface::getAllEnumValues`: the splitter is modelled, but not the query around it.
  - Where the text has no '}' after its '{' the program slices out of range. The model returns None there.
- `getAllVersions` dereferences the id cell without a null check. A row with a null id makes the model's read fail.
- The `return -1` in the bool functions `createWaferInDB` (SvtDbWaferDto.cpp:150) and `createAsicInDB` (SvtDbAsicDto.cpp:139), and the `return false` of `updateWaferInDB`, are not modelled. A refused statement reaches `raiseError` (sqlmapi.cpp:117-122, 182-195), which throws, so these returns cannot run.
  - WaferRecords.CreateWaferInDB, WaferRecords.UpdateWaferInDB and AsicDb.AsicTable.CreateAsicInDB model only the input checks and the statement, not the database's answer to it.
  - DbRows.InsertWafer does model that answer, as a parameter: the thrown message is the Failure of its reply.
- The Python plotting (`plot_nkf7_wafer_map`), file reads and writes and `main` of the SENTIO scripts are left out.
- The `float`/`double` overloads are left out: `addWhereEquals`, `addColumnAndValue`, `to_dec_d` and the double instantiation of `MultiType`. The EPIC agent's `MultiType`, which picks types by comparing `typeid` names, is left out too.
- SvtLogger.h is not part of this model. The mode values (STANDARD 0, VERBOSE 1, ALL 2), the default severities and the 32-bit unsigned type of the message counter are taken from the EPIC logger's header, which declares the same interface.
- Logging.SvtLogger.Log: the time stamps, the message text, the file rotation by date and the console/file output are left out. Whether the log file opens is a parameter.
- Logging.SvtLogger.constructor: the log file path and its opening are left out.
- VersionedInsert::doInsert of the EPIC and older agents is modelled only in its SVT form, SqlSvt.VersionedInsert.DoInsert. The EPIC and older builders' class headers, and the older agent's sqlmapi.cpp, are not part of this model.
- The wafer column list `dbWaferRecords::val_names` lives in a header that is not part of this model. The row width is a parameter of DbRows.GetAllSvtWafers, and DbRows.BuildWaferQuery takes the column list as a parameter.
- BitsManager.ItsBitsManager.ExtractFromUInt32 and ModifyUInt32 require a position and a width below 32, because a shift by 32 or more is undefined behaviour in C++.
- The uninitialised fields of the C++ `ItsBitsManager` start at 0 in BitsManager.ItsBitsManager.constructor.
- `1 << 31` in `SetClWord` overflows a signed int. The model takes the two's-complement result, which is what the compilers produce.
- A uint32_t is modelled as its 32 bits and a byte as its 8 bits, so `+`, `-` and the shifts are defined bit by bit modulo 2^32.
- ItsText: `isspace` and `iscntrl` are those of the C locale.
- WaferTypeCheck: the family enum list of the database is a parameter, modelled as a set.
- WaferTypeCheck.CheckWaferMap and WaferAsics.CreateAllAsics take the rows of MapGroups in the order of the document as given. The key order of the JSON library's object iteration is not modelled.
- WaferAsics.CreateAllAsics models a thrown exception as an error result. Records already inserted stay in the table.
- SentioMap.Family: a null FamilyType is read as "", as a missing one is. In both SENTIO scripts `get` returns None for a null member (Utilities/GlobaltoSentioMap.py:71-72, Configurations/WaferTypeMappings/GlobaltoSentioMap.py:40-41), so the `in` test raises TypeError when such a slot is examined. The scans do not model that exception.
- WaferRecords.UpdateWafer: the request always holds the three date members, and None is a null date. The "update" object is read through a const `operator[]` (SvtDbWaferDto.cpp:443, 455-468), which is undefined behaviour for a missing member, so a missing date is not modelled.
- WaferTypeCheck.ParseRange: index lists hold integers, strings and other scalars only. Two readings of the C++ `parse_range` (SvtDbWaferTypeDto.cpp:276-298) are outside that form:
  - A floating-point element passes `is_number`, and `get<std::vector<int>>` truncates it toward zero, so 3.7 is read as index 3. The model has no floating-point item.
  - A member that is the bare string "All", not a list, has size 1 and iterates as itself, so it reads as "All". A bare number makes `get` throw. The model's lists are always JSON arrays.
- BitsManager.ItsBitsManager.SetClWord: `_lrotl` is taken as a rotate of a 32-bit word, as on a compiler whose `unsigned long` has 32 bits. The 64-bit reading is under Findings.
- DbRows.EpicInsertFields: the EPIC agent's `insertWaferRecords` is modelled only as the list of fields it writes. Its statement and its reply are not modelled.
- SqlSvt.VersionedQuery.constructor, SqlSvt.VersionedInsert.constructor, SqlLegacy.VersionedQuery.constructor and SqlLegacy.VersionedInsert.constructor start the version id at 0. The C++ classes leave `mVersionId` uninitialised until `setVersionId` is called (DB/svt-db-agent/include/SVTDb/sqlmapi.h:163-200).
- AsicDb.PageOf: the pager's limit and offset are naturals. A negative JSON number converted to `size_t` (SvtDbAsicDto.cpp:187-188) becomes a huge value: as an offset it is refused as out of range, and as a limit it selects the whole tail. Those conversions are not modelled.
- EnumRegistry.Registry.ValuesReply: for an empty list of types the reply is the empty object. In the C++ code `data` is then never assigned (SvtDbEnumDto.cpp:172-181) and stays a JSON null.

## Findings

| source | as written | input that shows it | evidently intended | confidence | as-written member | corrected member |
|---|---|---|---|---|---|---|
| DB/svt-db-agent/src/SVTDbAgentDto/SvtDbWaferTypeDto.cpp:361-370 | the non-const `operator[]` that computes `g_size` inserts the group name into `Groups`, so the `contains` test that follows never fails | a block naming "Group7" in a map whose Groups holds only "Group1" | a block naming an unknown group is refused with "group name ... was not found" | not executed | WaferTypeCheck.UnknownGroupMapAccepted | WaferTypeCheck.AcceptsWellFormed |
| Configurations/WaferTypeMappings/GlobaltoSentioMap.py:26-45 | the column of a match is the block's index in the row, whatever the widths of the blocks before it | a row of a 6-slot Group1 block and a 10-slot Group2 block with NKF7 at slot 8 | the physical column, cursor plus position: 14 rather than 1 | not executed | SentioMapPositional.PositionalMisplacesColumns | SentioMap.MatchedColumnIsPosition |
| DB/db-agent/include/SVTUtilities/ItsBitsManager.h:21 | `_lrotl` rotates an unsigned long; where that has 64 bits, the bits rotated out of the low word do not come back | writing 0 into bits 4-7 of 0xffffffff | 0xffffff0f, with only the field changed | not executed | BitsManager.Lp64ModifyClearsBitsBelowField | BitsManager.ModifySplices |
| DB/svt-db-agent/src/SVTDbAgentDto/SvtDbWaferDto.cpp:158-194 | the update has no WHERE clause, so it sets the given dates on every wafer | any update request, for example thinningDate "2025-01-01" for wafer 3 | only the wafer with the requested id is updated | not executed | WaferRecords.UpdateAsWrittenIgnoresId | WaferRecords.UpdateSelectsOneWafer |
