# Client-file import and shared-memory spell publishing

This project models two small sequential parts of an EverQuest server emulator.

**The client-files import utility** reads three '^'-separated text files. From them it rebuilds the `spells_new`, `skill_caps` and `base_data` tables.
- A missing file is skipped and issues nothing.
- Otherwise one `DELETE` is issued for the table, then one `INSERT` per accepted line.
- A spell line is cut at its first newline, escaped and split. Its fields are quoted and truncated, or padded with `'0'`, to the number of columns that `DESCRIBE spells_new` reports.
- A skill-cap line needs four fields, read by `atoi` and printed by `%d`.
- A base-data line needs ten fields.

**The shared-memory spell publisher** does the following in order:
1. Takes the `"spells"` mutex.
2. Computes `records = max spell id + 1` and fails when that is zero.
3. Sizes a segment of `records * recordSize + 4` bytes and maps the file `SharedMemDir + prefix + "spells"`.
4. Zeroes the whole segment.
5. Lets the database loader write into it.
6. Unlocks the mutex.

Modules:
- `CText` (`c_text.dfy`): C strings in a character buffer. This covers the text up to the first NUL, the first occurrence of a character, and cutting at a newline.
- `Numerals` (`numerals.dfy`): `atoi` and `%d`, with the round trip between them.
- `SpellSql` (`spell_sql.dfy`): the spell `INSERT` statement as a function, and the method that builds it by appending, as the importer does.
- `ClientImport` (`client_import.dfy`): the database as a trace of issued statements (a `Database` class). It also holds the fgets buffer as an array and the three import loops.
- `SharedSpells` (`shared_spells.dfy`): the segment layout, and a `SpellPublisher` class. The class has a lock flag, the mapped segment as a byte array, and an event trace.

Foreign collaborators are inputs:
- `EscapeString` and `SplitString` are the parameters `escape` and `split`.
- The `atof`-then-`%f` formatting of a real field is the parameter `fixed`.
- The answer to `DESCRIBE spells_new` is the `Database`'s `spellColumns`, where `None` means the query failed.
- An import file is `None` when it cannot be opened. Otherwise it is the sequence of pieces fgets returns.
- The max-id query's answer, what the segment file held before, and what the database loader writes (a map from offsets to bytes) are parameters of `LoadSpells`.

The segment a successful publish leaves does not depend on what the file held before, so publishing the same data twice gives the same bytes.

## Model

| member | source | states |
|---|---|---|
| CText.IndexOf | client_files/import/main.cpp:90-95 | the position found is the first occurrence of the character, or the end when there is none |
| CText.UpTo | client_files/import/main.cpp:97 | the C string in a buffer: a prefix that holds no terminator and is followed by one, unless it is all of the text |
| CText.UpToAppend | client_files/import/main.cpp:89-97 | cutting a concatenation at `c` cuts the first part when it holds `c`, else keeps it whole and cuts the second |
| CText.TerminateAtNewline | client_files/import/main.cpp:90-95 | overwriting the first newline with NUL leaves as C string the old C string cut at its first newline, whatever lies past the terminator |
| Numerals.SkipSpaces | client_files/import/main.cpp:174-177 | `atoi`'s leading white space is skipped: what is dropped is all white space, and the rest is a suffix that does not start with a space |
| Numerals.LeadingDigits | client_files/import/main.cpp:174-177 | `atoi` reads the longest run of digits: a prefix of digits that is not followed by a digit |
| Numerals.Natural | client_files/import/main.cpp:179-180 | `%d` prints a non-negative number as a non-empty run of digits without leading zeros, starting with '0' only for zero |
| Numerals.NaturalValue | client_files/import/main.cpp:179-180 | the digits `%d` prints have the value of the number printed |
| Numerals.Decimal | client_files/import/main.cpp:179-180 | `%d` prints a minus sign exactly for a negative number, then digits without a leading zero |
| Numerals.AtoiReadsDecimal | client_files/import/main.cpp:174-180 | `atoi` of what `%d` printed, followed by anything but a digit, gives back the same integer |
| SpellSql.SpellInsertShape | client_files/import/main.cpp:101-135 | every spell statement starts with `INSERT INTO spells_new VALUES(` and ends with `);` |
| SpellSql.LongLineIsTruncated | client_files/import/main.cpp:102-115 | a line with at least `columns` fields lists exactly its first `columns` fields, quoted, in order, separated by ", "; the rest are dropped |
| SpellSql.ShortLineIsPadded | client_files/import/main.cpp:116-135 | a line with at least one field but fewer than `columns` lists all its fields quoted, then `columns - line_columns` copies of '0' |
| SpellSql.SpellInsertListsRow | client_files/import/main.cpp:101-135 | whenever the line has a field or there are no columns, the statement lists exactly `columns` values, position by position |
| SpellSql.EmptyLineStartsWithSeparator | client_files/import/main.cpp:116-132 | a line with no field and a table with columns gets a value list that starts with ", " |
| SpellSql.NoColumnsNoValues | client_files/import/main.cpp:62-115 | with no column (the column query failed) every statement is `INSERT INTO spells_new VALUES();` |
| SpellSql.BranchesAgree | client_files/import/main.cpp:102-135 | when the line has exactly `columns` fields both branches give the same text |
| SpellSql.BuildSpellInsert | client_files/import/main.cpp:101-135 | building the statement by appending, field by field and then padding, yields exactly the statement SpellInsert describes |
| ClientImport.Database.QueryDatabase | client_files/import/main.cpp:137 | issuing a statement appends it to the trace and changes nothing else |
| ClientImport.GetSpellColumns | client_files/import/main.cpp:62-72 | issues `DESCRIBE spells_new`; the column count is the number of rows reported, or 0 when the query fails |
| ClientImport.ReadInto | client_files/import/main.cpp:89 | fgets leaves the piece read, then its terminator, then the older buffer contents |
| ClientImport.CutNewline | client_files/import/main.cpp:90-95 | the buffer's first newline, if any, becomes NUL, and nothing else changes |
| ClientImport.SpellLineIsTrimmed | client_files/import/main.cpp:90-97 | the line escaped and split is a prefix of what was read and holds no newline; for text without NUL it is the text cut just before its first newline |
| ClientImport.BufferHoldsSpellLine | client_files/import/main.cpp:89-97 | after fgets and the newline scan, the buffer's C string is the line, whatever stale bytes follow |
| ClientImport.ReadSpellLine | client_files/import/main.cpp:88-97 | reading a piece into the buffer and cutting its newline yields the line of that piece |
| ClientImport.SpellsImportOrder | client_files/import/main.cpp:76-85 | a missing file issues nothing; otherwise the DELETE comes first, then the DESCRIBE, then one INSERT per piece read and nothing else |
| ClientImport.ImportSpells | client_files/import/main.cpp:74-150 | the statements issued are the DELETE, the DESCRIBE and one INSERT per piece in file order; the count returned is the number of pieces read |
| ClientImport.SkillCapInsertsAppend | client_files/import/main.cpp:164-183 | each piece's statements are issued independently, in file order |
| ClientImport.SkillCapsImportOrder | client_files/import/main.cpp:155-183 | a missing file issues nothing; otherwise the DELETE comes first, then exactly one skill-cap INSERT per piece with at least four fields, and so no more than one per piece |
| ClientImport.SkillCapInsertsCount | client_files/import/main.cpp:164-183 | one statement per piece with at least four fields, and none for the others |
| ClientImport.SkillCapLineValues | client_files/import/main.cpp:168-181 | a line whose first four fields are printed integers issues one INSERT carrying exactly those integers in order; later fields do not matter |
| ClientImport.IssueSkillCap | client_files/import/main.cpp:166-182 | a line with fewer than four fields issues nothing, any other issues its one INSERT |
| ClientImport.ImportSkillCaps | client_files/import/main.cpp:152-186 | the statements issued are exactly those of the skill-cap import of the file |
| ClientImport.BaseDataRowIgnoresExtraFields | client_files/import/main.cpp:207-225 | a base-data row uses its first ten fields only |
| ClientImport.BaseDataRowValues | client_files/import/main.cpp:207-225 | level and class are printed back as the integers they hold, followed by the eight real fields in order |
| ClientImport.BaseDataInsertsCount | client_files/import/main.cpp:200-228 | one statement per piece with at least ten fields, and none for the others |
| ClientImport.BaseDataImportOrder | client_files/import/main.cpp:191-228 | a missing file issues nothing; otherwise the DELETE comes first, then one base-data INSERT per piece with ten fields |
| ClientImport.IssueBaseData | client_files/import/main.cpp:202-227 | a line with fewer than ten fields issues nothing, any other issues its row |
| ClientImport.ImportBaseData | client_files/import/main.cpp:188-231 | the statements issued are exactly those of the base-data import of the file |
| ClientImport.ImportAll | client_files/import/main.cpp:55-57 | the spell, skill-cap and base-data imports run in that order on one database |
| SharedSpells.SlotsTileSegment | shared_memory/spells.cpp:35 | after the 4-byte header the record slots lie back to back and the last one ends where the segment ends |
| SharedSpells.SlotsDisjoint | shared_memory/spells.cpp:35 | the slots of two different spell ids share no byte |
| SharedSpells.PrefixesShareMutex | shared_memory/spells.cpp:28-38 | publishes with different prefixes map different files, while the lock and unlock events they record name the same mutex |
| SharedSpells.GapSlotIsZero | shared_memory/spells.cpp:40-43 | a slot the loader wrote nothing into reads as zero bytes |
| SharedSpells.WrittenBytesKept | shared_memory/spells.cpp:40-43 | every byte the loader wrote reads back as written |
| SharedSpells.SpellPublisher.Lock | shared_memory/spells.cpp:28-29 | the mutex, which was free, is held, and the lock is recorded |
| SharedSpells.SpellPublisher.Unlock | shared_memory/spells.cpp:44 | the mutex is released and the release is recorded |
| SharedSpells.SpellPublisher.Map | shared_memory/spells.cpp:39 | a fresh region of exactly the requested size, holding the file's old bytes and zeros past them |
| SharedSpells.SpellPublisher.ZeroFile | shared_memory/spells.cpp:40 | every byte of the mapped region is zero |
| SharedSpells.SpellPublisher.LoadInto | shared_memory/spells.cpp:42-43 | the loader's bytes are written and every other byte is kept; the loader is given the record count |
| SharedSpells.SpellPublisher.LoadSpells | shared_memory/spells.cpp:27-45 | fails, with the mutex taken and before the config is read or anything is mapped, exactly when there are no records. Otherwise the trace is lock, query, config, map of `SharedMemDir + prefix + "spells"` at `records * recordSize + 4` bytes, zero, load of `records`, unlock, and the segment holds the loader's bytes and zero everywhere else |

## Left out

- Process startup, configuration and log-settings loading, the database connection and all logging (client_files/import/main.cpp:31-53), including the progress message every 1000 spells. These are I/O.
- `EscapeString`, `SplitString`, `atof` and the `%f` conversion are not part of this model. They are the parameters `escape`, `split` and `fixed`.
- `fopen`, `fgets` and `fclose`: a file is its sequence of fgets pieces, each shorter than the 2048-character buffer. How fgets splits a long line into pieces is not modelled.
- Numerals.Atoi: values are unbounded integers. C's `atoi` overflow is undefined and the `int` fields wrap; neither is modelled.
- ClientImport.ImportSpells: the `int` counter is a `nat`, so overflow after 2^31 lines is not modelled.
- The database's behaviour on the statements (whether an INSERT succeeds, what DELETE removes) is left out. Only the statements issued are modelled.
- The cross-process semantics of the IPC mutex and the memory-mapped file (blocking, sharing between processes, growing the file) are reduced to a lock flag and a byte array.
- What the database's spell loader writes (header value, slot placement) is not part of this model. It is an input map that stays inside the segment.
- `sizeof(SPDat_Spell_Struct)` is the positive constant `recordSize`.
- SharedSpells.SpellPublisher.LoadSpells: the `uint32` size computation is assumed not to overflow (a precondition). The `int` addition `max id + 1` is not wrapped either: with `recordSize == 1` and a max id of 2^31 - 1 the model loads 2^31 records where C would wrap to a negative count. The max-id answer is assumed to be at least -1.
- SharedSpells.SpellPublisher.LoadSpells: after the failure path the contract says nothing about the lock. The source raises the exception without an explicit unlock, and whether the mutex object releases the lock as it goes out of scope is not part of this model. Releasing the lock on every exit path would be the safer choice; the model follows the code, which releases it explicitly only on success.
