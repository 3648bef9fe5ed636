/**
 * The `INSERT INTO spells_new` statement the spell importer builds for one
 * line: the line's '^'-separated fields, each in single quotes, truncated or
 * padded with '0' to the number of columns of the table.
 */
module SpellSql {

  const InsertHead := "INSERT INTO spells_new VALUES("
  const InsertTail := ");"
  /** The value a missing trailing column is filled with. */
  const ZeroValue := "'0'"

  function Quote(field: string): string {
    "'" + field + "'"
  }

  function QuoteAll(fields: seq<string>): seq<string> {
    seq(|fields|, i requires 0 <= i < |fields| => Quote(fields[i]))
  }

  /** SQL values separated by ", ". */
  function Join(values: seq<string>): string {
    if |values| == 0 then ""
    else if |values| == 1 then values[0]
    else Join(values[..|values| - 1]) + ", " + values[|values| - 1]
  }

  /** `n` copies of `s`, back to back. */
  function Repeat(s: string, n: nat): string {
    if n == 0 then "" else Repeat(s, n - 1) + s
  }

  /** The value text of a line with at least `columns` fields: its first `columns` fields. */
  function TruncatedValues(fields: seq<string>, columns: nat): string
    requires columns <= |fields|
  {
    Join(QuoteAll(fields[..columns]))
  }

  /** The value text of a line with at most `columns` fields: all of them, then one ", '0'" per missing column. */
  function PaddedValues(fields: seq<string>, columns: nat): string
    requires |fields| <= columns
  {
    Join(QuoteAll(fields)) + Repeat(", " + ZeroValue, columns - |fields|)
  }

  /** The statement issued for a line split into `fields`, for a table of `columns` columns. */
  function SpellInsert(fields: seq<string>, columns: nat): string {
    InsertHead
    + (if |fields| >= columns then TruncatedValues(fields, columns) else PaddedValues(fields, columns))
    + InsertTail
  }

  /** The row of values a table of `columns` columns receives from `fields`, position by position. */
  function Row(fields: seq<string>, columns: nat): seq<string> {
    seq(columns, i requires 0 <= i < columns => if i < |fields| then Quote(fields[i]) else ZeroValue)
  }

  lemma JoinSnoc(values: seq<string>, v: string)
    requires values != []
    ensures Join(values + [v]) == Join(values) + ", " + v
  {
    assert (values + [v])[..|values|] == values;
  }

  lemma QuoteAllSnoc(fields: seq<string>, i: nat)
    requires i < |fields|
    ensures QuoteAll(fields[..i + 1]) == QuoteAll(fields[..i]) + [Quote(fields[i])]
  {
  }

  /** Appending the padding one value at a time keeps it a ", "-separated list. */
  lemma {:induction false} PaddingJoins(values: seq<string>, n: nat)
    requires values != []
    ensures Join(values) + Repeat(", " + ZeroValue, n) == Join(values + seq(n, _ => ZeroValue))
  {
    if n == 0 {
      assert values + seq(0, _ => ZeroValue) == values;
    } else {
      PaddingJoins(values, n - 1);
      var shorter := values + seq(n - 1, _ => ZeroValue);
      assert values + seq(n, _ => ZeroValue) == shorter + [ZeroValue];
      JoinSnoc(shorter, ZeroValue);
    }
  }

  /** Padding with no field before it: every copy, the first included, starts with ", ". */
  lemma {:induction false} PaddingAlone(n: nat)
    requires n > 0
    ensures Repeat(", " + ZeroValue, n) == ", " + Join(seq(n, _ => ZeroValue))
  {
    if n > 1 {
      PaddingAlone(n - 1);
      var shorter := seq(n - 1, _ => ZeroValue);
      assert seq(n, _ => ZeroValue) == shorter + [ZeroValue];
      JoinSnoc(shorter, ZeroValue);
    }
  }

  /** Every statement starts with "INSERT INTO spells_new VALUES(" and ends with ");". */
  lemma SpellInsertShape(fields: seq<string>, columns: nat)
    ensures var sql := SpellInsert(fields, columns);
            && |sql| >= |InsertHead| + |InsertTail|
            && sql[..|InsertHead|] == InsertHead
            && sql[|sql| - |InsertTail|..] == InsertTail
  {
    var values := if |fields| >= columns then TruncatedValues(fields, columns) else PaddedValues(fields, columns);
    var sql := InsertHead + values + InsertTail;
    assert sql[..|InsertHead|] == InsertHead;
    assert sql[|sql| - |InsertTail|..] == InsertTail;
  }

  /**
   * A line with at least `columns` fields: the statement lists exactly its
   * first `columns` fields, quoted, in order; the other fields are dropped.
   */
  lemma LongLineIsTruncated(fields: seq<string>, columns: nat)
    requires |fields| >= columns
    ensures SpellInsert(fields, columns) == InsertHead + Join(QuoteAll(fields[..columns])) + InsertTail
    ensures Row(fields, columns) == QuoteAll(fields[..columns])
  {
  }

  /**
   * A line with at least one field but fewer than `columns`: the statement
   * lists all its fields, quoted, then `columns - |fields|` copies of '0', so
   * exactly `columns` values.
   */
  lemma ShortLineIsPadded(fields: seq<string>, columns: nat)
    requires 0 < |fields| < columns
    ensures SpellInsert(fields, columns)
            == InsertHead + Join(QuoteAll(fields) + seq(columns - |fields|, _ => ZeroValue)) + InsertTail
    ensures Row(fields, columns) == QuoteAll(fields) + seq(columns - |fields|, _ => ZeroValue)
  {
    PaddingJoins(QuoteAll(fields), columns - |fields|);
  }

  /**
   * Whenever the line has a field or the table has no column, the statement
   * lists exactly the row's `columns` values, separated by ", ".
   */
  lemma SpellInsertListsRow(fields: seq<string>, columns: nat)
    requires |fields| > 0 || columns == 0
    ensures |Row(fields, columns)| == columns
    ensures SpellInsert(fields, columns) == InsertHead + Join(Row(fields, columns)) + InsertTail
  {
    if |fields| >= columns {
      LongLineIsTruncated(fields, columns);
    } else {
      ShortLineIsPadded(fields, columns);
    }
  }

  /**
   * A line with no field at all, for a table with columns: the padding
   * starts with ", ", so the value list begins with a separator.
   */
  lemma EmptyLineStartsWithSeparator(columns: nat)
    requires columns > 0
    ensures SpellInsert([], columns) == InsertHead + ", " + Join(Row([], columns)) + InsertTail
  {
    PaddingAlone(columns);
    var padding := Repeat(", " + ZeroValue, columns);
    assert PaddedValues([], columns) == padding by {
      assert Join(QuoteAll([])) == "";
    }
    assert Row([], columns) == seq(columns, _ => ZeroValue);
    assert padding == ", " + Join(Row([], columns));
  }

  /** With no column (the column query failed) every statement lists nothing. */
  lemma NoColumnsNoValues(fields: seq<string>)
    ensures SpellInsert(fields, 0) == "INSERT INTO spells_new VALUES();"
  {
  }

  /** A line with exactly `columns` fields gets the same text from either branch. */
  lemma BranchesAgree(fields: seq<string>, columns: nat)
    requires |fields| == columns
    ensures TruncatedValues(fields, columns) == PaddedValues(fields, columns)
  {
    assert fields[..columns] == fields;
  }

  /** One step of the field loop: the quoted field goes on the end of the list. */
  lemma AppendedField(split: seq<string>, i: nat, before: string, after: string)
    requires i < |split|
    requires before == InsertHead + Join(QuoteAll(split[..i]))
    requires after == (if i != 0 then before + ", '" else before + "'") + split[i] + "'"
    ensures after == InsertHead + Join(QuoteAll(split[..i + 1]))
  {
    QuoteAllSnoc(split, i);
    if i != 0 {
      JoinSnoc(QuoteAll(split[..i]), Quote(split[i]));
      assert after == before + ", " + Quote(split[i]);
    } else {
      assert after == before + Quote(split[i]);
    }
  }

  /** One step of the padding loop: one more ", '0'" on the end. */
  lemma AppendedPadding(split: seq<string>, k: nat, before: string, after: string)
    requires before == InsertHead + Join(QuoteAll(split)) + Repeat(", " + ZeroValue, k)
    requires after == before + ", '0'"
    ensures after == InsertHead + Join(QuoteAll(split)) + Repeat(", " + ZeroValue, k + 1)
  {
    assert ", '0'" == ", " + ZeroValue;
  }

  /** The end of the first branch: the value text so far is the truncated one. */
  lemma TruncatedStatement(split: seq<string>, columns: nat, sql: string)
    requires columns <= |split|
    requires sql == InsertHead + Join(QuoteAll(split[..columns]))
    ensures sql + InsertTail == SpellInsert(split, columns)
  {
    assert sql == InsertHead + TruncatedValues(split, columns);
  }

  /** The end of the second branch: the value text so far is the padded one. */
  lemma PaddedStatement(split: seq<string>, columns: nat, sql: string)
    requires |split| < columns
    requires sql == InsertHead + Join(QuoteAll(split)) + Repeat(", " + ZeroValue, columns - |split|)
    ensures sql + InsertTail == SpellInsert(split, columns)
  {
    assert sql == InsertHead + PaddedValues(split, columns);
  }

  /**
   * Builds the statement by appending to it piece by piece, first the quoted
   * fields that fit, then (for a short line) the padding.
   */
  method BuildSpellInsert(split: seq<string>, columns: nat) returns (sql: string)
    ensures sql == SpellInsert(split, columns)
  {
    var lineColumns := |split|;
    if lineColumns >= columns {
      sql := InsertHead;
      var i := 0;
      while i < columns
        invariant 0 <= i <= columns
        invariant sql == InsertHead + Join(QuoteAll(split[..i]))
      {
        ghost var before := sql;
        if i != 0 {
          sql := sql + ", '";
        } else {
          sql := sql + "'";
        }
        sql := sql + split[i];
        sql := sql + "'";
        AppendedField(split, i, before, sql);
        i := i + 1;
      }
      TruncatedStatement(split, columns, sql);
      sql := sql + InsertTail;
    } else {
      var i := 0;
      sql := InsertHead;
      while i < lineColumns
        invariant 0 <= i <= lineColumns
        invariant sql == InsertHead + Join(QuoteAll(split[..i]))
      {
        ghost var before := sql;
        if i != 0 {
          sql := sql + ", '";
        } else {
          sql := sql + "'";
        }
        sql := sql + split[i];
        sql := sql + "'";
        AppendedField(split, i, before, sql);
        i := i + 1;
      }
      assert split[..lineColumns] == split;
      while i < columns
        invariant lineColumns <= i <= columns
        invariant sql == InsertHead + Join(QuoteAll(split)) + Repeat(", " + ZeroValue, i - lineColumns)
      {
        ghost var before := sql;
        sql := sql + ", '0'";
        AppendedPadding(split, i - lineColumns, before, sql);
        i := i + 1;
      }
      PaddedStatement(split, columns, sql);
      sql := sql + InsertTail;
    }
  }
}
