/**
 * The client-files import utility: it reads '^'-separated text files and
 * replaces the contents of the spells_new, skill_caps and base_data tables
 * with one INSERT per accepted line.
 *
 * The database is a trace of the statements issued to it. A file is `None`
 * when it cannot be opened, else the sequence of pieces fgets returns (each
 * shorter than the 2048-character buffer). The string utilities EscapeString
 * and SplitString are parameters.
 */
module ClientImport {
  import opened CText
  import opened Numerals
  import opened SpellSql

  datatype Option<T> = None | Some(value: T)

  /** The size of the line buffer fgets fills. */
  const BufferSize := 2048
  /** The field separator of every import file. */
  const Separator := '^'

  const DeleteSpells := "DELETE FROM spells_new"
  const DescribeSpells := "DESCRIBE spells_new"
  const DeleteSkillCaps := "DELETE FROM skill_caps"
  const DeleteBaseData := "DELETE FROM base_data"

  /** Fewer fields than these make a skill-cap line, or a base-data line, be skipped. */
  const SkillCapFields := 4
  const BaseDataFields := 10

  /** The database connection, seen through the statements issued on it. */
  class Database {
    /** Every statement issued so far, oldest first. */
    var issued: seq<string>
    /** How many rows `DESCRIBE spells_new` reports; `None` when that query fails. */
    const spellColumns: Option<nat>

    constructor (spellColumns: Option<nat>)
      ensures issued == [] && this.spellColumns == spellColumns
    {
      issued := [];
      this.spellColumns := spellColumns;
    }

    method QueryDatabase(sql: string)
      modifies this
      ensures issued == old(issued) + [sql]
    {
      issued := issued + [sql];
    }
  }

  lemma AppendAssociates(a: seq<string>, b: seq<string>, c: seq<string>)
    ensures a + b + c == a + (b + c)
  {
  }

  /** Every statement in `t` starts with `head`. */
  predicate AllStartWith(head: string, t: seq<string>) {
    forall k :: 0 <= k < |t| ==> head <= t[k]
  }

  /** Statements that all start with `head`, put one after the other, still all do. */
  lemma AllStartWithAppend(head: string, a: seq<string>, b: seq<string>)
    requires AllStartWith(head, a) && AllStartWith(head, b)
    ensures AllStartWith(head, a + b)
  {
    forall k | 0 <= k < |a + b|
      ensures head <= (a + b)[k]
    {
      if k < |a| {
        assert (a + b)[k] == a[k];
      } else {
        assert (a + b)[k] == b[k - |a|];
      }
    }
  }

  lemma HeadPrefix(head: string, rest: string)
    ensures head <= head + rest
  {
    assert (head + rest)[..|head|] == head;
  }

  /** The column count GetSpellColumns yields: 0 when the query fails. */
  function ColumnCount(answer: Option<nat>): nat {
    match answer
    case None => 0
    case Some(rows) => rows
  }

  method GetSpellColumns(db: Database) returns (columns: nat)
    modifies db
    ensures db.issued == old(db.issued) + [DescribeSpells]
    ensures columns == ColumnCount(db.spellColumns)
  {
    db.QueryDatabase(DescribeSpells);
    columns := ColumnCount(db.spellColumns);
  }

  /*
   * Reading a spell line.
   */

  /** What fgets leaves in the buffer: the piece read, its terminator, and older bytes after that. */
  method ReadInto(buffer: array<char>, piece: string)
    requires |piece| < buffer.Length
    modifies buffer
    ensures buffer[..] == piece + [NUL] + old(buffer[..])[|piece| + 1..]
  {
    forall i | 0 <= i < |piece| {
      buffer[i] := piece[i];
    }
    buffer[|piece|] := NUL;
    assert buffer[..] == piece + [NUL] + old(buffer[..])[|piece| + 1..];
  }

  /** Scans the whole buffer and overwrites its first newline, if any, with NUL. */
  method CutNewline(buffer: array<char>)
    modifies buffer
    ensures var q := IndexOf(old(buffer[..]), '\n');
            buffer[..] == if q < buffer.Length then old(buffer[..])[q := NUL] else old(buffer[..])
  {
    var i := 0;
    while i < buffer.Length
      invariant 0 <= i <= buffer.Length
      invariant buffer[..] == old(buffer[..])
      invariant forall j :: 0 <= j < i ==> buffer[j] != '\n'
    {
      if buffer[i] == '\n' {
        buffer[i] := NUL;
        break;
      }
      i := i + 1;
    }
  }

  /** The text the spell importer escapes and splits for a piece: cut at its terminator, then at its newline. */
  function SpellLine(piece: string): string {
    UpTo(UpTo(piece, NUL), '\n')
  }

  /**
   * The line is a prefix of what was read and holds no newline; for text
   * without NUL it is exactly the text cut just before its first newline.
   */
  lemma SpellLineIsTrimmed(piece: string)
    ensures SpellLine(piece) <= piece && '\n' !in SpellLine(piece)
    ensures NUL !in piece ==> SpellLine(piece) == UpTo(piece, '\n')
  {
    if NUL !in piece {
      UpToAbsent(piece, NUL);
    }
  }

  /** After ReadInto and CutNewline, the C string in the buffer is SpellLine of the piece read. */
  lemma BufferHoldsSpellLine(piece: string, stale: string)
    ensures var s := piece + [NUL] + stale;
            var q := IndexOf(s, '\n');
            UpTo(if q < |s| then s[q := NUL] else s, NUL) == SpellLine(piece)
  {
    var s := piece + [NUL] + stale;
    TerminateAtNewline(s);
    assert UpTo(s, NUL) == UpTo(piece, NUL) by {
      assert s == piece + ([NUL] + stale);
      UpToAppend(piece, [NUL] + stale, NUL);
      if NUL !in piece {
        UpToAbsent(piece, NUL);
        assert UpTo([NUL] + stale, NUL) == [];
      }
    }
  }

  /**
   * Reads one piece into the buffer the way the spell importer does: fgets
   * fills it, the first newline in it is overwritten, and the C string left
   * in it is the line.
   */
  method ReadSpellLine(buffer: array<char>, piece: string) returns (line: string)
    requires |piece| < buffer.Length
    modifies buffer
    ensures line == SpellLine(piece)
  {
    ghost var stale := buffer[..][|piece| + 1..];
    ReadInto(buffer, piece);
    CutNewline(buffer);
    BufferHoldsSpellLine(piece, stale);
    line := UpTo(buffer[..], NUL);
  }

  /*
   * The spell importer.
   */

  /** One INSERT per piece read, in file order. */
  function SpellInserts(pieces: seq<string>, columns: nat, escape: string -> string,
                        split: (string, char) -> seq<string>): seq<string>
  {
    seq(|pieces|, i requires 0 <= i < |pieces| =>
      SpellInsert(split(escape(SpellLine(pieces[i])), Separator), columns))
  }

  /** The statements ImportSpells issues: none for a missing file, else DELETE, DESCRIBE, then the INSERTs. */
  function SpellsImport(file: Option<seq<string>>, columns: nat, escape: string -> string,
                        split: (string, char) -> seq<string>): seq<string>
  {
    match file
    case None => []
    case Some(pieces) => [DeleteSpells, DescribeSpells] + SpellInserts(pieces, columns, escape, split)
  }

  lemma SpellInsertsSnoc(pieces: seq<string>, n: nat, columns: nat, escape: string -> string,
                         split: (string, char) -> seq<string>)
    requires n < |pieces|
    ensures SpellInserts(pieces[..n + 1], columns, escape, split)
            == SpellInserts(pieces[..n], columns, escape, split)
               + [SpellInsert(split(escape(SpellLine(pieces[n])), Separator), columns)]
  {
  }

  /**
   * No statement at all for a missing file; otherwise the DELETE is the
   * first statement and no statement but INSERTs follows the DESCRIBE.
   */
  lemma SpellsImportOrder(file: Option<seq<string>>, columns: nat, escape: string -> string,
                          split: (string, char) -> seq<string>)
    ensures var t := SpellsImport(file, columns, escape, split);
            && (file.None? <==> t == [])
            && (file.Some? ==> |t| == |file.value| + 2 && t[0] == DeleteSpells && t[1] == DescribeSpells)
            && (forall k :: 2 <= k < |t| ==> InsertHead <= t[k])
  {
    if file.Some? {
      var pieces := file.value;
      var t := SpellsImport(file, columns, escape, split);
      forall k | 2 <= k < |t|
        ensures InsertHead <= t[k]
      {
        SpellInsertShape(split(escape(SpellLine(pieces[k - 2])), Separator), columns);
      }
    }
  }

  /**
   * Imports a spells file: every piece read becomes exactly one INSERT and is
   * counted; the count is returned.
   */
  method ImportSpells(db: Database, file: Option<seq<string>>, escape: string -> string,
                      split: (string, char) -> seq<string>)
    returns (spellsImported: nat)
    requires file.Some? ==> forall piece :: piece in file.value ==> |piece| < BufferSize
    modifies db
    ensures db.issued == old(db.issued) + SpellsImport(file, ColumnCount(db.spellColumns), escape, split)
    ensures spellsImported == if file.Some? then |file.value| else 0
  {
    if file.None? {
      return 0;
    }
    var pieces := file.value;
    db.QueryDatabase(DeleteSpells);
    var columns := GetSpellColumns(db);
    spellsImported := 0;

    var buffer := new char[BufferSize];
    var n := 0;
    while n < |pieces|
      invariant n <= |pieces| && spellsImported == n
      invariant db.issued == old(db.issued) + [DeleteSpells, DescribeSpells]
                             + SpellInserts(pieces[..n], columns, escape, split)
    {
      var line := ReadSpellLine(buffer, pieces[n]);
      var escaped := escape(line);
      var fields := split(escaped, Separator);
      var sql := BuildSpellInsert(fields, columns);
      db.QueryDatabase(sql);
      SpellInsertsSnoc(pieces, n, columns, escape, split);
      spellsImported := spellsImported + 1;
      n := n + 1;
    }
    assert pieces[..n] == pieces;
  }

  /*
   * Lines accepted by a field-count filter, shared by the skill-cap and
   * base-data importers. Their lines are not trimmed before splitting.
   */

  /** Whether a piece splits into at least `need` fields. */
  predicate HasFields(piece: string, split: (string, char) -> seq<string>, need: nat) {
    |split(UpTo(piece, NUL), Separator)| >= need
  }

  /** The positions, among the first `n` pieces, of those with at least `need` fields. */
  function AcceptedLines(pieces: seq<string>, n: nat, split: (string, char) -> seq<string>, need: nat): set<nat>
    requires n <= |pieces|
  {
    set i: nat | i < n && HasFields(pieces[i], split, need)
  }

  lemma AcceptedLinesSnoc(pieces: seq<string>, n: nat, split: (string, char) -> seq<string>, need: nat)
    requires n < |pieces|
    ensures AcceptedLines(pieces, n + 1, split, need)
            == AcceptedLines(pieces, n, split, need) + (if HasFields(pieces[n], split, need) then {n} else {})
  {
  }

  lemma AcceptedLinesPrefix(pieces: seq<string>, n: nat, split: (string, char) -> seq<string>, need: nat)
    requires n <= |pieces|
    ensures AcceptedLines(pieces[..n], n, split, need) == AcceptedLines(pieces, n, split, need)
  {
    assert forall i :: 0 <= i < n ==> pieces[..n][i] == pieces[i];
  }

  /*
   * The skill-cap importer.
   */

  /** The statement for one skill cap, its four integers printed by `%d`. */
  const SkillCapHead := "INSERT INTO skill_caps(class, skillID, level, cap) VALUES("

  function SkillCapInsert(classId: int, skillId: int, level: int, cap: int): string {
    SkillCapHead + (Decimal(classId) + ", " + Decimal(skillId) + ", " + Decimal(level) + ", " + Decimal(cap) + ")")
  }

  lemma SkillCapInsertHead(classId: int, skillId: int, level: int, cap: int)
    ensures SkillCapHead <= SkillCapInsert(classId, skillId, level, cap)
  {
    HeadPrefix(SkillCapHead, Decimal(classId) + ", " + Decimal(skillId) + ", " + Decimal(level) + ", " + Decimal(cap) + ")");
  }

  /** The statements for one skill-cap line: none below four fields, else one from fields 0 to 3. */
  function SkillCapLine(fields: seq<string>): seq<string> {
    if |fields| < SkillCapFields then []
    else [SkillCapInsert(Atoi(fields[0]), Atoi(fields[1]), Atoi(fields[2]), Atoi(fields[3]))]
  }

  /** The INSERTs for the pieces read; the line is not trimmed, so its last field keeps the newline. */
  function SkillCapInserts(pieces: seq<string>, split: (string, char) -> seq<string>): seq<string> {
    if pieces == [] then []
    else SkillCapInserts(pieces[..|pieces| - 1], split)
         + SkillCapLine(split(UpTo(pieces[|pieces| - 1], NUL), Separator))
  }

  function SkillCapsImport(file: Option<seq<string>>, split: (string, char) -> seq<string>): seq<string> {
    match file
    case None => []
    case Some(pieces) => [DeleteSkillCaps] + SkillCapInserts(pieces, split)
  }

  lemma SkillCapInsertsSnoc(pieces: seq<string>, n: nat, split: (string, char) -> seq<string>)
    requires n < |pieces|
    ensures SkillCapInserts(pieces[..n + 1], split)
            == SkillCapInserts(pieces[..n], split) + SkillCapLine(split(UpTo(pieces[n], NUL), Separator))
  {
    assert pieces[..n + 1][..n] == pieces[..n];
  }

  /** The skill-cap INSERTs of a file are those of its first part followed by those of the rest. */
  lemma {:induction false} SkillCapInsertsAppend(a: seq<string>, b: seq<string>, split: (string, char) -> seq<string>)
    ensures SkillCapInserts(a + b, split) == SkillCapInserts(a, split) + SkillCapInserts(b, split)
  {
    if b == [] {
      assert a + b == a;
    } else {
      var b' := b[..|b| - 1];
      assert (a + b)[..|a + b| - 1] == a + b';
      SkillCapInsertsAppend(a, b', split);
    }
  }

  /** At most one INSERT per piece, and every statement is a skill-cap INSERT. */
  lemma {:induction false} SkillCapInsertsShape(pieces: seq<string>, split: (string, char) -> seq<string>)
    ensures |SkillCapInserts(pieces, split)| <= |pieces|
    ensures AllStartWith(SkillCapHead, SkillCapInserts(pieces, split))
  {
    if pieces != [] {
      var init := pieces[..|pieces| - 1];
      SkillCapInsertsShape(init, split);
      var last := SkillCapLine(split(UpTo(pieces[|pieces| - 1], NUL), Separator));
      assert SkillCapInserts(pieces, split) == SkillCapInserts(init, split) + last;
      if last != [] {
        var fields := split(UpTo(pieces[|pieces| - 1], NUL), Separator);
        SkillCapInsertHead(Atoi(fields[0]), Atoi(fields[1]), Atoi(fields[2]), Atoi(fields[3]));
      }
      AllStartWithAppend(SkillCapHead, SkillCapInserts(init, split), last);
    }
  }

  /** Only pieces with at least four fields issue a statement, one each. */
  lemma {:induction false} SkillCapInsertsCount(pieces: seq<string>, split: (string, char) -> seq<string>)
    ensures |SkillCapInserts(pieces, split)| == |AcceptedLines(pieces, |pieces|, split, SkillCapFields)|
  {
    if pieces != [] {
      var m := |pieces| - 1;
      SkillCapInsertsCount(pieces[..m], split);
      AcceptedLinesPrefix(pieces, m, split, SkillCapFields);
      AcceptedLinesSnoc(pieces, m, split, SkillCapFields);
      assert m !in AcceptedLines(pieces, m, split, SkillCapFields);
    }
  }

  /**
   * No statement at all for a missing file; otherwise the DELETE comes first,
   * then one skill-cap INSERT per piece with at least four fields.
   */
  lemma SkillCapsImportOrder(file: Option<seq<string>>, split: (string, char) -> seq<string>)
    ensures var t := SkillCapsImport(file, split);
            && (file.None? <==> t == [])
            && (file.Some? ==> |t| == |AcceptedLines(file.value, |file.value|, split, SkillCapFields)| + 1
                               && |t| <= |file.value| + 1 && t[0] == DeleteSkillCaps)
            && (forall k :: 1 <= k < |t| ==> SkillCapHead <= t[k])
  {
    if file.Some? {
      SkillCapInsertsShape(file.value, split);
      SkillCapInsertsCount(file.value, split);
    }
  }

  /**
   * A skill-cap line with fewer than four fields issues nothing; any other
   * issues one INSERT carrying the values of fields 0 to 3 in order, whatever
   * follows them. When those fields are integers printed in decimal (with
   * anything but a digit after them) the INSERT carries exactly those integers.
   */
  lemma SkillCapLineValues(fields: seq<string>, values: seq<int>, rests: seq<string>)
    requires |values| == 4 && |rests| == 4 && |fields| >= 4
    requires forall i :: 0 <= i < 4 ==> fields[i] == Decimal(values[i]) + rests[i]
    requires forall i :: 0 <= i < 4 ==> rests[i] == [] || !IsDigit(rests[i][0])
    ensures SkillCapLine(fields) == [SkillCapInsert(values[0], values[1], values[2], values[3])]
    ensures SkillCapLine(fields) == SkillCapLine(fields[..4])
  {
    forall i | 0 <= i < 4
      ensures Atoi(fields[i]) == values[i]
    {
      AtoiReadsDecimal(values[i], rests[i]);
    }
  }

  /** The body of the skill-cap loop: skip a short line, else issue its INSERT. */
  method IssueSkillCap(db: Database, fields: seq<string>)
    modifies db
    ensures db.issued == old(db.issued) + SkillCapLine(fields)
  {
    if |fields| < SkillCapFields {
      return;
    }
    var classId := Atoi(fields[0]);
    var skillId := Atoi(fields[1]);
    var level := Atoi(fields[2]);
    var cap := Atoi(fields[3]);
    var sql := SkillCapInsert(classId, skillId, level, cap);
    db.QueryDatabase(sql);
  }

  method ImportSkillCaps(db: Database, file: Option<seq<string>>, split: (string, char) -> seq<string>)
    modifies db
    ensures db.issued == old(db.issued) + SkillCapsImport(file, split)
  {
    if file.None? {
      return;
    }
    var pieces := file.value;
    db.QueryDatabase(DeleteSkillCaps);
    ghost var start := db.issued;

    var n := 0;
    while n < |pieces|
      invariant n <= |pieces|
      invariant db.issued == start + SkillCapInserts(pieces[..n], split)
    {
      var fields := split(UpTo(pieces[n], NUL), Separator);
      SkillCapInsertsSnoc(pieces, n, split);
      IssueSkillCap(db, fields);
      AppendAssociates(start, SkillCapInserts(pieces[..n], split), SkillCapLine(fields));
      n := n + 1;
    }
    assert pieces[..n] == pieces;
    AppendAssociates(old(db.issued), [DeleteSkillCaps], SkillCapInserts(pieces, split));
  }

  /*
   * The base-data importer. How a real field is read by `atof` and printed
   * by `%f` is the parameter `fixed`.
   */

  const BaseDataHead := "INSERT INTO base_data(level, class, hp, mana, end, unk1, unk2, hp_fac, mana_fac, end_fac) VALUES("

  /**
   * The statement for one base-data row: level and class read by `atoi` and
   * printed by `%d`, then the eight real fields as `fixed` prints them.
   */
  function BaseDataInsert(fields: seq<string>, fixed: string -> string): string
    requires |fields| >= BaseDataFields
  {
    BaseDataHead
    + (Decimal(Atoi(fields[0])) + ", " + Decimal(Atoi(fields[1])) + ", "
       + Join(seq(8, i requires 0 <= i < 8 => fixed(fields[i + 2]))) + ")")
  }

  lemma BaseDataInsertHead(fields: seq<string>, fixed: string -> string)
    requires |fields| >= BaseDataFields
    ensures BaseDataHead <= BaseDataInsert(fields, fixed)
  {
    HeadPrefix(BaseDataHead, Decimal(Atoi(fields[0])) + ", " + Decimal(Atoi(fields[1])) + ", "
                             + Join(seq(8, i requires 0 <= i < 8 => fixed(fields[i + 2]))) + ")");
  }

  lemma BaseDataLineHead(piece: string, split: (string, char) -> seq<string>, fixed: string -> string)
    ensures AllStartWith(BaseDataHead, BaseDataLine(piece, split, fixed))
  {
    var fields := split(UpTo(piece, NUL), Separator);
    if |fields| >= BaseDataFields {
      BaseDataInsertHead(fields, fixed);
    }
  }

  /** A row uses the first ten fields only; any further field is ignored. */
  lemma BaseDataRowIgnoresExtraFields(fields: seq<string>, fixed: string -> string)
    requires |fields| >= BaseDataFields
    ensures BaseDataInsert(fields, fixed) == BaseDataInsert(fields[..BaseDataFields], fixed)
  {
    var first := fields[..BaseDataFields];
    assert seq(8, i requires 0 <= i < 8 => fixed(fields[i + 2]))
           == seq(8, i requires 0 <= i < 8 => fixed(first[i + 2]));
  }

  /**
   * When level and class are integers printed in decimal (with anything but
   * a digit after them), the row carries exactly those two integers.
   */
  lemma BaseDataRowValues(fields: seq<string>, level: int, classId: int, rests: seq<string>,
                          fixed: string -> string)
    requires |fields| >= BaseDataFields && |rests| == 2
    requires fields[0] == Decimal(level) + rests[0] && fields[1] == Decimal(classId) + rests[1]
    requires forall i :: 0 <= i < 2 ==> rests[i] == [] || !IsDigit(rests[i][0])
    ensures BaseDataInsert(fields, fixed)
            == BaseDataHead + (Decimal(level) + ", " + Decimal(classId) + ", "
                                 + Join(seq(8, i requires 0 <= i < 8 => fixed(fields[i + 2]))) + ")")
  {
    AtoiReadsDecimal(level, rests[0]);
    AtoiReadsDecimal(classId, rests[1]);
  }

  /** The statements for one base-data piece: none below ten fields, else its row. */
  function BaseDataLine(piece: string, split: (string, char) -> seq<string>,
                        fixed: string -> string): seq<string>
  {
    var fields := split(UpTo(piece, NUL), Separator);
    if |fields| >= BaseDataFields then [BaseDataInsert(fields, fixed)] else []
  }

  function BaseDataInserts(pieces: seq<string>, split: (string, char) -> seq<string>,
                           fixed: string -> string): seq<string>
  {
    if pieces == [] then []
    else BaseDataInserts(pieces[..|pieces| - 1], split, fixed) + BaseDataLine(pieces[|pieces| - 1], split, fixed)
  }

  function BaseDataImport(file: Option<seq<string>>, split: (string, char) -> seq<string>,
                          fixed: string -> string): seq<string>
  {
    match file
    case None => []
    case Some(pieces) => [DeleteBaseData] + BaseDataInserts(pieces, split, fixed)
  }

  /** Only pieces with at least ten fields issue a statement, one each. */
  lemma {:induction false} BaseDataInsertsCount(pieces: seq<string>, split: (string, char) -> seq<string>,
                                                fixed: string -> string)
    ensures |BaseDataInserts(pieces, split, fixed)| == |AcceptedLines(pieces, |pieces|, split, BaseDataFields)|
  {
    if pieces != [] {
      var m := |pieces| - 1;
      BaseDataInsertsCount(pieces[..m], split, fixed);
      AcceptedLinesPrefix(pieces, m, split, BaseDataFields);
      AcceptedLinesSnoc(pieces, m, split, BaseDataFields);
      assert m !in AcceptedLines(pieces, m, split, BaseDataFields);
    }
  }

  /** Every statement for the pieces is a base-data INSERT. */
  lemma {:induction false} BaseDataInsertsShape(pieces: seq<string>, split: (string, char) -> seq<string>,
                                                fixed: string -> string)
    ensures AllStartWith(BaseDataHead, BaseDataInserts(pieces, split, fixed))
  {
    if pieces != [] {
      var init := pieces[..|pieces| - 1];
      BaseDataInsertsShape(init, split, fixed);
      var last := BaseDataLine(pieces[|pieces| - 1], split, fixed);
      assert BaseDataInserts(pieces, split, fixed) == BaseDataInserts(init, split, fixed) + last;
      BaseDataLineHead(pieces[|pieces| - 1], split, fixed);
      AllStartWithAppend(BaseDataHead, BaseDataInserts(init, split, fixed), last);
    }
  }

  /**
   * No statement at all for a missing file; otherwise the DELETE comes first,
   * then one base-data INSERT per piece with at least ten fields.
   */
  lemma BaseDataImportOrder(file: Option<seq<string>>, split: (string, char) -> seq<string>,
                            fixed: string -> string)
    ensures var t := BaseDataImport(file, split, fixed);
            && (file.None? <==> t == [])
            && (file.Some? ==> |t| == |AcceptedLines(file.value, |file.value|, split, BaseDataFields)| + 1 && t[0] == DeleteBaseData)
            && (forall k :: 1 <= k < |t| ==> BaseDataHead <= t[k])
  {
    if file.Some? {
      BaseDataInsertsShape(file.value, split, fixed);
      BaseDataInsertsCount(file.value, split, fixed);
    }
  }

  lemma BaseDataInsertsSnoc(pieces: seq<string>, n: nat, split: (string, char) -> seq<string>,
                            fixed: string -> string)
    requires n < |pieces|
    ensures BaseDataInserts(pieces[..n + 1], split, fixed)
            == BaseDataInserts(pieces[..n], split, fixed) + BaseDataLine(pieces[n], split, fixed)
  {
    assert pieces[..n + 1][..n] == pieces[..n];
  }

  /** The body of the base-data loop: skip a short line, else issue its row. */
  method IssueBaseData(db: Database, piece: string, split: (string, char) -> seq<string>,
                       fixed: string -> string)
    modifies db
    ensures db.issued == old(db.issued) + BaseDataLine(piece, split, fixed)
  {
    var fields := split(UpTo(piece, NUL), Separator);
    if |fields| < BaseDataFields {
      return;
    }
    var level := Atoi(fields[0]);
    var classId := Atoi(fields[1]);
    var reals := seq(8, i requires 0 <= i < 8 => fixed(fields[i + 2]));
    var sql := BaseDataHead + (Decimal(level) + ", " + Decimal(classId) + ", " + Join(reals) + ")");
    db.QueryDatabase(sql);
  }

  method ImportBaseData(db: Database, file: Option<seq<string>>, split: (string, char) -> seq<string>,
                        fixed: string -> string)
    modifies db
    ensures db.issued == old(db.issued) + BaseDataImport(file, split, fixed)
  {
    if file.None? {
      return;
    }
    var pieces := file.value;
    db.QueryDatabase(DeleteBaseData);
    ghost var start := db.issued;

    var n := 0;
    while n < |pieces|
      invariant n <= |pieces|
      invariant db.issued == start + BaseDataInserts(pieces[..n], split, fixed)
    {
      BaseDataInsertsSnoc(pieces, n, split, fixed);
      IssueBaseData(db, pieces[n], split, fixed);
      AppendAssociates(start, BaseDataInserts(pieces[..n], split, fixed), BaseDataLine(pieces[n], split, fixed));
      n := n + 1;
    }
    assert pieces[..n] == pieces;
    AppendAssociates(old(db.issued), [DeleteBaseData], BaseDataInserts(pieces, split, fixed));
  }

  /** The three imports, in the order the utility runs them. */
  method ImportAll(db: Database, spells: Option<seq<string>>, skillCaps: Option<seq<string>>,
                   baseData: Option<seq<string>>, escape: string -> string,
                   split: (string, char) -> seq<string>, fixed: string -> string)
    requires spells.Some? ==> forall piece :: piece in spells.value ==> |piece| < BufferSize
    modifies db
    ensures db.issued == old(db.issued)
                         + SpellsImport(spells, ColumnCount(db.spellColumns), escape, split)
                         + SkillCapsImport(skillCaps, split)
                         + BaseDataImport(baseData, split, fixed)
  {
    var _ := ImportSpells(db, spells, escape, split);
    ImportSkillCaps(db, skillCaps, split);
    ImportBaseData(db, baseData, split, fixed);
  }
}
