/**
 * What the extraction pipeline guarantees, stated over the pure description
 * in `FileProcessors` (which the `FileProcessor` methods are proved to follow).
 */
module ProcessorProperties {
  import opened Wrappers
  import opened PyText
  import opened Dates
  import opened Models
  import opened FileProcessors

  // ---------------------------------------------------------------------
  // Column mapping

  /**
   * A field resolves exactly when some candidate is contained in some column
   * name, and then to the column picked by the first candidate that matches
   * anything, taking the first such column.
   */
  lemma {:induction false} ResolveFirstMatch(row: Row, cands: seq<string>)
    ensures Resolve(row, cands).None? <==> forall k :: 0 <= k < |cands| ==> NoColumnMatches(row, cands[k])
    ensures Resolve(row, cands).Some? ==>
              exists k: nat, j: nat :: IsFirstMatch(row, cands, k, j) && Resolve(row, cands).value == row[j].value
  {
    if cands != [] {
      match FirstColumn(row, cands[0])
      case Some(j) =>
        assert IsFirstMatch(row, cands, 0, j);
      case None =>
        ResolveFirstMatch(row, cands[1..]);
        var rest := cands[1..];
        assert NoColumnMatches(row, cands[0]);
        assert forall k :: 1 <= k < |cands| ==> cands[k] == rest[k - 1];
        if Resolve(row, rest).Some? {
          var k: nat, j: nat :| IsFirstMatch(row, rest, k, j) && Resolve(row, rest).value == row[j].value;
          assert IsFirstMatch(row, cands, k + 1, j);
        }
    }
  }

  /** There is only one first match. */
  lemma FirstMatchUnique(row: Row, cands: seq<string>, k1: nat, j1: nat, k2: nat, j2: nat)
    requires IsFirstMatch(row, cands, k1, j1) && IsFirstMatch(row, cands, k2, j2)
    ensures k1 == k2 && j1 == j2
  {
  }

  /** The fields of the table are pairwise distinct. */
  lemma TableDistinct(i: nat, k: nat)
    requires i < |ColumnTable| && k < |ColumnTable| && i != k
    ensures ColumnTable[i].0 != ColumnTable[k].0
  {
    assert FieldIndex(ColumnTable[i].0) == i && FieldIndex(ColumnTable[k].0) == k by {
      TableIndexed(i);
      TableIndexed(k);
    }
  }

  lemma TableIndexed(i: nat)
    requires i < |ColumnTable|
    ensures FieldIndex(ColumnTable[i].0) == i
  {
  }

  /** One more row of the table, for field `h` of row `k`, in terms of values only. */
  lemma MappingGrows(m0: map<Field, string>, m1: map<Field, string>, g: Field, r: Option<string>,
                     h: Field, rk: Option<string>, k: nat, t: nat)
    requires t > 0
    requires h in m0 <==> k < t - 1 && rk.Some?
    requires h in m0 ==> m0[h] == rk.value
    requires g !in m0
    requires m1 == if r.Some? then m0[g := r.value] else m0
    requires k == t - 1 ==> g == h && r == rk
    requires k != t - 1 ==> g != h
    ensures h in m1 <==> k < t && rk.Some?
    ensures h in m1 ==> m1[h] == rk.value
  {
  }

  /** After `t` rows of the table, the field of row `k` is mapped exactly when `k < t` and it resolves. */
  lemma {:induction false} PartialMappingResolves(row: Row, t: nat, k: nat)
    requires t <= |ColumnTable| && k < |ColumnTable|
    ensures ColumnTable[k].0 in PartialMapping(row, t) <==> k < t && Resolve(row, ColumnTable[k].1).Some?
    ensures ColumnTable[k].0 in PartialMapping(row, t) ==>
              PartialMapping(row, t)[ColumnTable[k].0] == Resolve(row, ColumnTable[k].1).value
  {
    if t > 0 {
      PartialMappingResolves(row, t - 1, k);
      PartialMappingStep(row, t - 1);
      if k != t - 1 {
        TableDistinct(k, t - 1);
      }
      MappingGrows(PartialMapping(row, t - 1), PartialMapping(row, t),
                   ColumnTable[t - 1].0, Resolve(row, ColumnTable[t - 1].1),
                   ColumnTable[k].0, Resolve(row, ColumnTable[k].1), k, t);
    } else {
      assert PartialMapping(row, t) == map[];
    }
  }

  /** The `data` dict holds a field exactly when the field resolves, with the resolved value. */
  lemma ColumnMappingResolves(row: Row, f: Field)
    ensures f in ColumnMapping(row) <==> Resolve(row, Candidates(f)).Some?
    ensures f in ColumnMapping(row) ==> ColumnMapping(row)[f] == Resolve(row, Candidates(f)).value
  {
    PartialMappingResolves(row, |ColumnTable|, FieldIndex(f));
  }

  // ---------------------------------------------------------------------
  // Shadowed candidates

  /** Being a piece of a text is transitive. */
  lemma ContainsTransitive(a: string, b: string, c: string)
    requires Contains(c, b) && Contains(b, a)
    ensures Contains(c, a)
  {
    ContainsIff(c, b);
    ContainsIff(b, a);
    var i: nat :| OccursAt(c, b, i);
    var j: nat :| OccursAt(b, a, j);
    forall t | 0 <= t < |a| ensures c[i + j + t] == a[t] {
      assert c[i..i + |b|][j + t] == b[j + t];
      assert b[j..j + |a|][t] == b[j + t];
    }
    assert c[i + j..i + j + |a|] == a;
    OccurrenceContained(c, a, i + j);
  }

  /** A column that contains candidate `b` also contains every candidate `a` that `b` contains. */
  lemma MatchesShadowed(a: string, b: string, column: string)
    requires Contains(Lower(b), Lower(a))
    ensures Matches(b, column) ==> Matches(a, column)
  {
    if Matches(b, column) {
      ContainsTransitive(Lower(a), Lower(b), Lower(column));
    }
  }

  /** A candidate that no column contains can be struck from the list without changing the resolved value. */
  lemma {:induction false} DropUnmatched(row: Row, cands: seq<string>, k: nat)
    requires k < |cands| && NoColumnMatches(row, cands[k])
    ensures Resolve(row, cands) == Resolve(row, cands[..k] + cands[k + 1..])
  {
    var d := cands[..k] + cands[k + 1..];
    if k == 0 {
      assert d == cands[1..];
    } else {
      assert d[0] == cands[0];
      if FirstColumn(row, cands[0]).None? {
        var rest := cands[1..];
        DropUnmatched(row, rest, k - 1);
        assert d[1..] == rest[..k - 1] + rest[k..];
      }
    }
  }

  /**
   * A candidate that contains an earlier candidate of the same field never
   * decides the field: striking it from the list changes nothing.
   */
  lemma {:induction false} DropShadowed(row: Row, cands: seq<string>, k1: nat, k2: nat)
    requires k1 < k2 < |cands| && Contains(Lower(cands[k2]), Lower(cands[k1]))
    ensures Resolve(row, cands) == Resolve(row, cands[..k2] + cands[k2 + 1..])
  {
    var d := cands[..k2] + cands[k2 + 1..];
    assert d[0] == cands[0];
    if FirstColumn(row, cands[0]).None? {
      if k1 == 0 {
        forall j | 0 <= j < |row| ensures !Matches(cands[k2], row[j].column) {
          MatchesShadowed(cands[k1], cands[k2], row[j].column);
        }
        DropUnmatched(row, cands, k2);
      } else {
        var rest := cands[1..];
        DropShadowed(row, rest, k1 - 1, k2 - 1);
        assert d[1..] == rest[..k2 - 1] + rest[k2..];
      }
    }
  }

  /** A lower-case text that occurs in another lower-case text at `i` is one of its pieces once both are lowered. */
  lemma LowerPiece(big: string, small: string, i: nat)
    requires Lower(big) == big && Lower(small) == small && OccursAt(big, small, i)
    ensures Contains(Lower(big), Lower(small))
  {
    OccurrenceContained(big, small, i);
  }

  lemma DatePieces()
    ensures Contains(Lower("transaction_date"), Lower("date")) && Contains(Lower("entry_date"), Lower("date"))
  {
    assert Lower("date") == "date";
    assert Lower("transaction_date") == "transaction_date";
    assert Lower("entry_date") == "entry_date";
    LowerPiece("transaction_date", "date", 12);
    LowerPiece("entry_date", "date", 6);
  }

  lemma AccountPieces()
    ensures Contains(Lower("account_name"), Lower("account")) && Contains(Lower("account_number"), Lower("account"))
  {
    assert Lower("account") == "account";
    assert Lower("account_name") == "account_name";
    assert Lower("account_number") == "account_number";
    LowerPiece("account_name", "account", 0);
    LowerPiece("account_number", "account", 0);
  }

  lemma TypeAndReferencePieces()
    ensures Contains(Lower("entry_type"), Lower("type")) && Contains(Lower("ref_number"), Lower("ref"))
  {
    assert Lower("type") == "type" && Lower("entry_type") == "entry_type";
    assert Lower("ref") == "ref" && Lower("ref_number") == "ref_number";
    LowerPiece("entry_type", "type", 6);
    LowerPiece("ref_number", "ref", 0);
  }

  /**
   * Six entries of the column table can never decide their field, because
   * an earlier candidate of the same field is a piece of them: the date is
   * found by `date` alone, the account by `account` alone, the type without
   * `entry_type` and the reference without `ref_number`.
   */
  lemma ShadowedCandidatesNeverDecide(row: Row)
    ensures Resolve(row, Candidates(DateField)) == Resolve(row, ["date"])
    ensures Resolve(row, Candidates(AccountField)) == Resolve(row, ["account"])
    ensures Resolve(row, Candidates(TypeField)) == Resolve(row, ["type", "debit_credit", "dr_cr"])
    ensures Resolve(row, Candidates(ReferenceField)) == Resolve(row, ["reference", "ref", "transaction_id"])
  {
    DatePieces();
    AccountPieces();
    TypeAndReferencePieces();
    var date := Candidates(DateField);
    DropShadowed(row, date, 0, 2);
    assert date[..2] + date[3..] == ["date", "transaction_date"];
    DropShadowed(row, ["date", "transaction_date"], 0, 1);
    assert ["date", "transaction_date"][..1] + ["date", "transaction_date"][2..] == ["date"];
    var account := Candidates(AccountField);
    DropShadowed(row, account, 0, 2);
    assert account[..2] + account[3..] == ["account", "account_name"];
    DropShadowed(row, ["account", "account_name"], 0, 1);
    assert ["account", "account_name"][..1] + ["account", "account_name"][2..] == ["account"];
    var typ := Candidates(TypeField);
    DropShadowed(row, typ, 0, 1);
    assert typ[..1] + typ[2..] == ["type", "debit_credit", "dr_cr"];
    var reference := Candidates(ReferenceField);
    DropShadowed(row, reference, 1, 2);
    assert reference[..2] + reference[3..] == ["reference", "ref", "transaction_id"];
  }

  lemma {:induction false} TooShortNotContained(hay: string, needle: string)
    requires |needle| > |hay|
    ensures !Contains(hay, needle)
  {
    if hay != [] {
      TooShortNotContained(hay[1..], needle);
    }
  }

  lemma ContainsSkipsMismatch(hay: string, needle: string)
    requires |hay| > 0 && |needle| > 0 && hay[0] != needle[0]
    ensures Contains(hay, needle) == Contains(hay[1..], needle)
  {
    assert !(needle <= hay) by {
      if |needle| <= |hay| {
        assert hay[..|needle|][0] != needle[0];
      }
    }
  }

  lemma AmountCandidatesNotInAmt()
    ensures !Contains("amt", "amount") && !Contains("amt", "value") && !Contains("amt", "total") && !Contains("amt", "sum")
  {
    TooShortNotContained("amt", "amount");
    TooShortNotContained("amt", "value");
    TooShortNotContained("amt", "total");
    TooShortNotContained("mt", "sum");
    ContainsSkipsMismatch("amt", "sum");
    assert "amt"[1..] == "mt";
  }

  lemma AmountCandidatesNotInDesc()
    ensures !Contains("desc", "amount") && !Contains("desc", "value") && !Contains("desc", "total") && !Contains("desc", "sum")
  {
    TooShortNotContained("desc", "amount");
    TooShortNotContained("desc", "value");
    TooShortNotContained("desc", "total");
    TooShortNotContained("sc", "sum");
    ContainsSkipsMismatch("desc", "sum");
    ContainsSkipsMismatch("esc", "sum");
    assert "desc"[1..] == "esc" && "esc"[1..] == "sc";
  }

  lemma AmountNotInTxnDate()
    ensures !Contains("txn date", "amount")
  {
    var hay := "txn date";
    ContainsSkipsMismatch(hay, "amount");
    ContainsSkipsMismatch(hay[1..], "amount");
    ContainsSkipsMismatch(hay[2..], "amount");
    TooShortNotContained(hay[3..], "amount");
    assert hay[1..][1..] == hay[2..] && hay[2..][1..] == hay[3..];
  }

  lemma ValueNotInTxnDate()
    ensures !Contains("txn date", "value")
  {
    var hay := "txn date";
    ContainsSkipsMismatch(hay, "value");
    ContainsSkipsMismatch(hay[1..], "value");
    ContainsSkipsMismatch(hay[2..], "value");
    ContainsSkipsMismatch(hay[3..], "value");
    TooShortNotContained(hay[4..], "value");
    assert hay[1..][1..] == hay[2..] && hay[2..][1..] == hay[3..] && hay[3..][1..] == hay[4..];
  }

  lemma TotalNotInTxnDate()
    ensures !Contains("txn date", "total")
  {
    var hay := "txn date";
    assert !("total" <= hay) by {
      assert hay[..5][1] != "total"[1];
    }
    ContainsSkipsMismatch(hay[1..], "total");
    ContainsSkipsMismatch(hay[2..], "total");
    ContainsSkipsMismatch(hay[3..], "total");
    TooShortNotContained(hay[4..], "total");
    assert hay[1..][1..] == hay[2..] && hay[2..][1..] == hay[3..] && hay[3..][1..] == hay[4..];
  }

  lemma SumNotInTxnDate()
    ensures !Contains("txn date", "sum")
  {
    var hay := "txn date";
    ContainsSkipsMismatch(hay, "sum");
    ContainsSkipsMismatch(hay[1..], "sum");
    ContainsSkipsMismatch(hay[2..], "sum");
    ContainsSkipsMismatch(hay[3..], "sum");
    ContainsSkipsMismatch(hay[4..], "sum");
    ContainsSkipsMismatch(hay[5..], "sum");
    TooShortNotContained(hay[6..], "sum");
    assert hay[1..][1..] == hay[2..] && hay[2..][1..] == hay[3..] && hay[3..][1..] == hay[4..];
    assert hay[4..][1..] == hay[5..] && hay[5..][1..] == hay[6..];
  }

  /** A row in which no column contains any amount candidate is skipped. */
  lemma NoAmountColumnSkipped(ctx: Context, row: Row)
    requires forall k :: 0 <= k < |Candidates(AmountField)| ==> NoColumnMatches(row, Candidates(AmountField)[k])
    ensures RowOutcome(ctx, row) == Skipped
  {
    ResolveFirstMatch(row, Candidates(AmountField));
    ColumnMappingResolves(row, AmountField);
  }

  lemma AbbreviatedHeadersLowered()
    ensures Lower("Txn Date") == "txn date" && Lower("Amt") == "amt" && Lower("Desc") == "desc"
    ensures Lower("amount") == "amount" && Lower("value") == "value" && Lower("total") == "total" && Lower("sum") == "sum"
  {
  }

  lemma AmountCandidatesList()
    ensures Candidates(AmountField) == ["amount", "value", "total", "sum"]
  {
  }

  lemma TxnDateUnmatched()
    ensures !Matches("amount", "Txn Date") && !Matches("value", "Txn Date")
    ensures !Matches("total", "Txn Date") && !Matches("sum", "Txn Date")
  {
    AbbreviatedHeadersLowered();
    AmountNotInTxnDate();
    ValueNotInTxnDate();
    TotalNotInTxnDate();
    SumNotInTxnDate();
  }

  lemma AmtUnmatched()
    ensures !Matches("amount", "Amt") && !Matches("value", "Amt")
    ensures !Matches("total", "Amt") && !Matches("sum", "Amt")
  {
    AbbreviatedHeadersLowered();
    AmountCandidatesNotInAmt();
  }

  lemma DescUnmatched()
    ensures !Matches("amount", "Desc") && !Matches("value", "Desc")
    ensures !Matches("total", "Desc") && !Matches("sum", "Desc")
  {
    AbbreviatedHeadersLowered();
    AmountCandidatesNotInDesc();
  }

  lemma AbbreviatedHeadersNoColumn(row: Row, c: string)
    requires row == [Cell("Txn Date", "2024-01-05"), Cell("Amt", "250"), Cell("Desc", "Office supplies")]
    requires c == "amount" || c == "value" || c == "total" || c == "sum"
    ensures NoColumnMatches(row, c)
  {
    TxnDateUnmatched();
    AmtUnmatched();
    DescUnmatched();
    forall j | 0 <= j < |row| ensures !Matches(c, row[j].column) {
      assert j == 0 || j == 1 || j == 2;
    }
  }

  lemma AbbreviatedHeadersNoAmount(row: Row)
    requires row == [Cell("Txn Date", "2024-01-05"), Cell("Amt", "250"), Cell("Desc", "Office supplies")]
    ensures forall k :: 0 <= k < |Candidates(AmountField)| ==> NoColumnMatches(row, Candidates(AmountField)[k])
  {
    var cands := Candidates(AmountField);
    AmountCandidatesList();
    forall k | 0 <= k < |cands| ensures NoColumnMatches(row, cands[k]) {
      AbbreviatedHeadersNoColumn(row, cands[k]);
    }
  }

  /**
   * Containment runs candidate-in-column only: the abbreviated headers `Amt`
   * and `Desc` are not recognised, so a row whose only amount-like column is
   * `Amt` produces nothing.
   */
  lemma AbbreviatedHeadersSkipped(ctx: Context)
    ensures RowOutcome(ctx, [Cell("Txn Date", "2024-01-05"), Cell("Amt", "250"), Cell("Desc", "Office supplies")]) == Skipped
  {
    var row := [Cell("Txn Date", "2024-01-05"), Cell("Amt", "250"), Cell("Desc", "Office supplies")];
    AbbreviatedHeadersNoAmount(row);
    NoAmountColumnSkipped(ctx, row);
  }

  // ---------------------------------------------------------------------
  // Pipe-delimited lines

  /** The type column is a debit exactly when its text begins with `d` or `D`; anything else, even empty, is a credit. */
  lemma EntryTypeRule(text: string)
    ensures EntryTypeOf(text) == Debit <==> |text| > 0 && (text[0] == 'd' || text[0] == 'D')
    ensures EntryTypeOf(text) == Credit <==> !(|text| > 0 && (text[0] == 'd' || text[0] == 'D'))
  {
    LowerStartsWithD(text);
  }

  /** A line is skipped silently exactly when it has fewer than three pipes. */
  lemma LineSkippedIff(ctx: Context, line: string)
    ensures LineOutcome(ctx, line).Skipped? <==> Count(line, '|') < 3
  {
    CountPositive(line, '|');
    SplitPieces(line, '|');
  }

  /** Each piece of `[p.strip() for p in parts]` is the stripped piece. */
  lemma StripAllAt(parts: seq<string>, k: nat)
    requires k < |parts|
    ensures StripAll(parts)[k] == Strip(parts[k])
  {
  }

  /**
   * What a saved line-based entry holds: title, date and amount come from the
   * first three stripped pieces, the type from the fourth, the amount has its
   * sign dropped and fits the column, and the account is always `General`.
   */
  lemma LineCreatedEntry(ctx: Context, line: string)
    requires LineOutcome(ctx, line).Created?
    ensures Count(line, '|') >= 3
    ensures var parts := StripAll(Split(line, '|'));
            var e := LineOutcome(ctx, line).entry;
            |parts| >= 4
            && StrictIsoDate(parts[0]) == Ok(e.date)
            && e.title == parts[1]
            && ctx.parsers.decimal(parts[2]).Ok?
            && e.amount == Abs(ctx.parsers.decimal(parts[2]).value)
            && e.entryType == EntryTypeOf(parts[3])
    ensures var e := LineOutcome(ctx, line).entry;
            e.project == ctx.project && e.user == ctx.user
            && e.description == "" && e.accountName == GeneralAccount && e.referenceNumber == ""
            && e.amount >= 0 && AmountFits(e.amount)
  {
    LineSkippedIff(ctx, line);
  }

  /** Pieces after the fourth are ignored: appending `|extra` to a line that already has four pieces changes nothing. */
  lemma ExtraPartsIgnored(ctx: Context, line: string, extra: string)
    requires Count(line, '|') >= 3
    ensures LineOutcome(ctx, line + "|" + extra) == LineOutcome(ctx, line)
  {
    var longer := line + "|" + extra;
    assert longer == line + ['|'] + extra;
    SplitAppend(line, extra, '|');
    SplitPieces(line, '|');
    CountPositive(line, '|');
    assert '|' in longer by {
      assert longer[|line|] == '|';
    }
    var a := Split(line, '|');
    var b := Split(longer, '|');
    assert b == a + Split(extra, '|');
    forall k | 0 <= k < 4
      ensures StripAll(b)[k] == StripAll(a)[k]
    {
      StripAllAt(a, k);
      StripAllAt(b, k);
      assert b[k] == a[k];
    }
  }

  /** The text layout `parse_journal_line` reads: `date | title | amount | type`. */
  function FormatLine(d: CalendarDate, title: string, amount: string, typ: string): string
  {
    FormatIso(d) + " | " + title + " | " + amount + " | " + typ
  }

  lemma FormatIsoPlain(d: CalendarDate)
    ensures '|' !in FormatIso(d) && Trimmed(FormatIso(d))
  {
    var s := FormatIso(d);
    assert forall i :: 0 <= i < |s| ==> s[i] == '-' || ('0' <= s[i] <= '9');
  }

  lemma SplitFirstPiece(a: string, rest: string)
    requires '|' !in a
    ensures Split(a + "|" + rest, '|') == [a] + Split(rest, '|')
  {
    SplitWithoutSeparator(a, '|');
    SplitAppend(a, rest, '|');
    assert a + "|" + rest == a + ['|'] + rest;
  }

  lemma PipeJoinAssoc(a: string, b: string, c: string, e: string)
    ensures a + "|" + b + "|" + c + "|" + e == a + "|" + (b + "|" + (c + "|" + e))
  {
  }

  lemma SplitFourPieces(a: string, b: string, c: string, e: string)
    requires '|' !in a && '|' !in b && '|' !in c && '|' !in e
    ensures Split(a + "|" + b + "|" + c + "|" + e, '|') == [a, b, c, e]
  {
    SplitWithoutSeparator(e, '|');
    SplitFirstPiece(c, e);
    SplitFirstPiece(b, c + "|" + e);
    SplitFirstPiece(a, b + "|" + (c + "|" + e));
    PipeJoinAssoc(a, b, c, e);
  }

  lemma FormatLineLayout(d: CalendarDate, title: string, amount: string, typ: string)
    ensures FormatLine(d, title, amount, typ)
            == (FormatIso(d) + " ") + "|" + (" " + title + " ") + "|" + (" " + amount + " ") + "|" + (" " + typ)
  {
  }

  lemma StripAllFour(a: string, b: string, c: string, e: string)
    requires Trimmed(a) && Trimmed(b) && Trimmed(c) && Trimmed(e)
    ensures StripAll([a + " ", " " + b + " ", " " + c + " ", " " + e]) == [a, b, c, e]
  {
    StripPadded(a);
    StripPadded(b);
    StripPadded(c);
    StripPadded(e);
  }

  /** The pieces `parse_journal_line` sees in a laid-out line are the four fields. */
  lemma FormatLinePieces(d: CalendarDate, title: string, amount: string, typ: string)
    requires '|' !in title && '|' !in amount && '|' !in typ
    requires Trimmed(title) && Trimmed(amount) && Trimmed(typ)
    ensures '|' in FormatLine(d, title, amount, typ)
    ensures StripAll(Split(FormatLine(d, title, amount, typ), '|')) == [FormatIso(d), title, amount, typ]
  {
    FormatIsoPlain(d);
    FormatLineLayout(d, title, amount, typ);
    SplitFourPieces(FormatIso(d) + " ", " " + title + " ", " " + amount + " ", " " + typ);
    StripAllFour(FormatIso(d), title, amount, typ);
    assert FormatLine(d, title, amount, typ)[11] == '|';
  }

  /**
   * Round trip: a line laid out from a date, a title, an amount text and a
   * type text (each without pipes or surrounding whitespace) parses back to
   * an entry holding exactly those values, whenever the amount text is a
   * decimal that fits the column.
   */
  lemma LineFormatRoundTrip(ctx: Context, d: CalendarDate, title: string, amount: string, typ: string, cents: int)
    requires '|' !in title && '|' !in amount && '|' !in typ
    requires Trimmed(title) && Trimmed(amount) && Trimmed(typ)
    requires ctx.parsers.decimal(amount) == Ok(cents) && AmountFits(Abs(cents))
    ensures LineOutcome(ctx, FormatLine(d, title, amount, typ))
            == Created(JournalEntry(ctx.project, ctx.user, title, "", EntryTypeOf(typ), Abs(cents), d, GeneralAccount, ""))
  {
    FormatLinePieces(d, title, amount, typ);
    StrictIsoDateRoundTrip(d);
  }

  lemma December1Text()
    ensures FormatIso(Date(2023, 12, 1)) == "2023-12-01"
  {
  }

  lemma PlainField(x: string)
    requires |x| > 0 && forall i :: 0 <= i < |x| ==> x[i] != '|'
    requires !IsSpace(x[0]) && !IsSpace(x[|x| - 1])
    ensures '|' !in x && Trimmed(x)
  {
  }

  lemma SalesRevenueLayout(d: CalendarDate, line: string)
    requires d == Date(2023, 12, 1)
    requires line == "2023-12-01 | Sales Revenue | 1000.00 | Credit"
    ensures FormatLine(d, "Sales Revenue", "1000.00", "Credit") == line
  {
    December1Text();
    assert "2023-12-01" + " | " == "2023-12-01 | ";
    assert "2023-12-01 | " + "Sales Revenue" == "2023-12-01 | Sales Revenue";
    assert "2023-12-01 | Sales Revenue" + " | " == "2023-12-01 | Sales Revenue | ";
    assert "2023-12-01 | Sales Revenue | " + "1000.00" == "2023-12-01 | Sales Revenue | 1000.00";
    assert "2023-12-01 | Sales Revenue | 1000.00" + " | " == "2023-12-01 | Sales Revenue | 1000.00 | ";
    assert "2023-12-01 | Sales Revenue | 1000.00 | " + "Credit" == "2023-12-01 | Sales Revenue | 1000.00 | Credit";
  }

  lemma SalesRevenueFields()
    ensures '|' !in "Sales Revenue" && '|' !in "1000.00" && '|' !in "Credit"
    ensures Trimmed("Sales Revenue") && Trimmed("1000.00") && Trimmed("Credit")
    ensures EntryTypeOf("Credit") == Credit
  {
    PlainField("Sales Revenue");
    PlainField("1000.00");
    PlainField("Credit");
    EntryTypeRule("Credit");
  }

  /** The credit line of the documented examples: a 1000.00 credit to `General`. */
  lemma SalesRevenueLine(ctx: Context, line: string)
    requires line == "2023-12-01 | Sales Revenue | 1000.00 | Credit"
    requires ctx.parsers.decimal("1000.00") == Ok(100000)
    ensures LineOutcome(ctx, line)
            == Created(JournalEntry(ctx.project, ctx.user, "Sales Revenue", "", Credit, 100000, Date(2023, 12, 1), "General", ""))
  {
    var d: CalendarDate := Date(2023, 12, 1);
    SalesRevenueLayout(d, line);
    SalesRevenueFields();
    LineFormatRoundTrip(ctx, d, "Sales Revenue", "1000.00", "Credit", 100000);
  }

  lemma RentLayout(d: CalendarDate, line: string)
    requires d == Date(2023, 12, 1)
    requires line == "2023-12-01 | Rent | -500.00 | Debit"
    ensures FormatLine(d, "Rent", "-500.00", "Debit") == line
  {
    December1Text();
    assert "2023-12-01" + " | " == "2023-12-01 | ";
    assert "2023-12-01 | " + "Rent" == "2023-12-01 | Rent";
    assert "2023-12-01 | Rent" + " | " == "2023-12-01 | Rent | ";
    assert "2023-12-01 | Rent | " + "-500.00" == "2023-12-01 | Rent | -500.00";
    assert "2023-12-01 | Rent | -500.00" + " | " == "2023-12-01 | Rent | -500.00 | ";
    assert "2023-12-01 | Rent | -500.00 | " + "Debit" == "2023-12-01 | Rent | -500.00 | Debit";
  }

  lemma RentFields()
    ensures '|' !in "Rent" && '|' !in "-500.00" && '|' !in "Debit"
    ensures Trimmed("Rent") && Trimmed("-500.00") && Trimmed("Debit")
    ensures EntryTypeOf("Debit") == Debit
  {
    PlainField("Rent");
    PlainField("-500.00");
    PlainField("Debit");
    EntryTypeRule("Debit");
  }

  /** The debit line of the documented examples: the sign of -500.00 is dropped. */
  lemma RentLine(ctx: Context, line: string)
    requires line == "2023-12-01 | Rent | -500.00 | Debit"
    requires ctx.parsers.decimal("-500.00") == Ok(-50000)
    ensures LineOutcome(ctx, line)
            == Created(JournalEntry(ctx.project, ctx.user, "Rent", "", Debit, 50000, Date(2023, 12, 1), "General", ""))
  {
    var d: CalendarDate := Date(2023, 12, 1);
    RentLayout(d, line);
    RentFields();
    LineFormatRoundTrip(ctx, d, "Rent", "-500.00", "Debit", -50000);
  }

  /** A line without any pipe is skipped and leaves no log record. */
  lemma MalformedLineSilent(ctx: Context)
    ensures LineOutcome(ctx, "not a valid line") == Skipped
    ensures LineLog(ctx, "not a valid line") == []
  {
    var line := "not a valid line";
    assert '|' !in line by {
      assert forall i :: 0 <= i < |line| ==> line[i] != '|';
    }
  }

  // ---------------------------------------------------------------------
  // Whole inputs

  /** Every line ends in exactly one of: an entry, a warning, a silent skip; every record is a warning for this upload. */
  lemma {:induction false} LinesAccounting(ctx: Context, lines: seq<string>)
    ensures |LinesEntries(ctx, lines)| + |LinesLogs(ctx, lines)| + LinesSkipped(ctx, lines) == |lines|
    ensures forall i :: 0 <= i < |LinesLogs(ctx, lines)| ==>
              LinesLogs(ctx, lines)[i].upload == ctx.upload && LinesLogs(ctx, lines)[i].level == Warning
  {
    if lines != [] {
      LinesAccounting(ctx, lines[..|lines| - 1]);
    }
  }

  /** The 1-based numbers of the rows whose processing raised, in row order. */
  function RejectedRows(ctx: Context, rows: seq<Row>): (r: seq<nat>)
    ensures forall i :: 0 <= i < |r| ==> 1 <= r[i] <= |rows|
    ensures forall i, j :: 0 <= i < j < |r| ==> r[i] < r[j]
  {
    if rows == [] then []
    else RejectedRows(ctx, rows[..|rows| - 1]) + (if RowOutcome(ctx, rows[|rows| - 1]).Rejected? then [|rows|] else [])
  }

  /** A row number is listed exactly when that row's processing raised. */
  lemma {:induction false} RejectedRowsExactly(ctx: Context, rows: seq<Row>, n: nat)
    requires 1 <= n <= |rows|
    ensures n in RejectedRows(ctx, rows) <==> RowOutcome(ctx, rows[n - 1]).Rejected?
  {
    var init := rows[..|rows| - 1];
    var tail: seq<nat> := if RowOutcome(ctx, rows[|rows| - 1]).Rejected? then [|rows|] else [];
    assert RejectedRows(ctx, rows) == RejectedRows(ctx, init) + tail;
    if n < |rows| {
      RejectedRowsExactly(ctx, init, n);
      assert init[n - 1] == rows[n - 1];
      assert n !in tail;
    } else {
      assert n !in RejectedRows(ctx, init);
    }
  }

  /** Every row ends in exactly one outcome; every record is a warning for this upload. */
  lemma {:induction false} RowsAccounting(ctx: Context, rows: seq<Row>)
    ensures |RowsEntries(ctx, rows)| + |RowsLogs(ctx, rows)| + RowsSkipped(ctx, rows) == |rows|
    ensures forall i :: 0 <= i < |RowsLogs(ctx, rows)| ==>
              RowsLogs(ctx, rows)[i].upload == ctx.upload && RowsLogs(ctx, rows)[i].level == Warning
  {
    if rows != [] {
      RowsAccounting(ctx, rows[..|rows| - 1]);
    }
  }

  /** `log` is the warning for row number `n` (1-based) of `rows`, whose processing raised. */
  predicate WarnsAbout(ctx: Context, rows: seq<Row>, log: LogRecord, n: nat)
  {
    1 <= n <= |rows| && RowOutcome(ctx, rows[n - 1]).Rejected?
    && log.message == RowWarning(n, RowOutcome(ctx, rows[n - 1]).reason)
  }

  lemma WarnsAboutPrefix(ctx: Context, rows: seq<Row>, k: nat, log: LogRecord, n: nat)
    requires k <= |rows|
    requires WarnsAbout(ctx, rows[..k], log, n)
    ensures WarnsAbout(ctx, rows, log, n)
  {
    assert rows[..k][n - 1] == rows[n - 1];
  }

  /** The `i`-th row warning reports the `i`-th failing row, by its 1-based number and the reason it failed. */
  lemma {:induction false} RowWarningsNameRows(ctx: Context, rows: seq<Row>)
    ensures |RowsLogs(ctx, rows)| == |RejectedRows(ctx, rows)|
    ensures forall i :: 0 <= i < |RowsLogs(ctx, rows)| ==>
              WarnsAbout(ctx, rows, RowsLogs(ctx, rows)[i], RejectedRows(ctx, rows)[i])
  {
    if rows != [] {
      var init := rows[..|rows| - 1];
      RowWarningsNameRows(ctx, init);
      var prev, nums := RowsLogs(ctx, init), RejectedRows(ctx, init);
      var last := rows[|rows| - 1];
      var tail: seq<nat> := if RowOutcome(ctx, last).Rejected? then [|rows|] else [];
      assert RowsLogs(ctx, rows) == prev + RowLog(ctx, last, |rows|);
      assert RejectedRows(ctx, rows) == nums + tail;
      forall i | 0 <= i < |prev|
        ensures WarnsAbout(ctx, rows, RowsLogs(ctx, rows)[i], RejectedRows(ctx, rows)[i])
      {
        assert WarnsAbout(ctx, init, prev[i], nums[i]);
        WarnsAboutPrefix(ctx, rows, |rows| - 1, prev[i], nums[i]);
      }
    }
  }

  /** A row with no columns is neither saved nor reported, so warnings plus entries can fall short of the row count. */
  lemma EmptyRowUnreported(ctx: Context)
    ensures RowsEntries(ctx, [[]]) == [] && RowsLogs(ctx, [[]]) == []
  {
    ColumnMappingResolves([], AmountField);
    ResolveFirstMatch([], Candidates(AmountField));
    var rows: seq<Row> := [[]];
    assert rows[..0] == [];
  }

  /** What every saved entry satisfies, whichever path created it. */
  predicate SavedBy(ctx: Context, e: JournalEntry)
  {
    e.project == ctx.project && e.user == ctx.user && e.amount >= 0 && AmountFits(e.amount)
  }

  lemma RowCreatedEntry(ctx: Context, row: Row)
    requires RowOutcome(ctx, row).Created?
    ensures SavedBy(ctx, RowOutcome(ctx, row).entry)
    ensures var e := RowOutcome(ctx, row).entry;
            var data := ColumnMapping(row);
            AmountField in data && DateField in data
            && ctx.parsers.decimal(data[AmountField]).Ok?
            && e.amount == Abs(ctx.parsers.decimal(data[AmountField]).value)
            && ctx.parsers.flexibleDate(data[DateField]) == Ok(e.date)
            && e.title == Lookup(data, TitleField, DefaultTitle(ctx.originalFilename))
            && e.accountName == Lookup(data, AccountField, GeneralAccount)
            && e.referenceNumber == Lookup(data, ReferenceField, "")
            && e.entryType == EntryTypeOf(Lookup(data, TypeField, ""))
            && e.description == ""
  {
  }

  /** A row is skipped exactly when no column holds an amount candidate or none holds a date candidate. */
  lemma RowSkippedIff(ctx: Context, row: Row)
    ensures RowOutcome(ctx, row).Skipped? <==>
              (forall k :: 0 <= k < |Candidates(AmountField)| ==> NoColumnMatches(row, Candidates(AmountField)[k]))
              || (forall k :: 0 <= k < |Candidates(DateField)| ==> NoColumnMatches(row, Candidates(DateField)[k]))
  {
    ColumnMappingResolves(row, AmountField);
    ColumnMappingResolves(row, DateField);
    ResolveFirstMatch(row, Candidates(AmountField));
    ResolveFirstMatch(row, Candidates(DateField));
  }

  lemma {:induction false} LinesEntriesSaved(ctx: Context, lines: seq<string>)
    ensures forall i :: 0 <= i < |LinesEntries(ctx, lines)| ==>
              SavedBy(ctx, LinesEntries(ctx, lines)[i]) && LinesEntries(ctx, lines)[i].accountName == GeneralAccount
  {
    if lines != [] {
      LinesEntriesSaved(ctx, lines[..|lines| - 1]);
      var line := Strip(lines[|lines| - 1]);
      if LineOutcome(ctx, line).Created? {
        LineCreatedEntry(ctx, line);
      }
    }
  }

  lemma {:induction false} RowsEntriesSaved(ctx: Context, rows: seq<Row>)
    ensures forall i :: 0 <= i < |RowsEntries(ctx, rows)| ==> SavedBy(ctx, RowsEntries(ctx, rows)[i])
  {
    if rows != [] {
      RowsEntriesSaved(ctx, rows[..|rows| - 1]);
      if RowOutcome(ctx, rows[|rows| - 1]).Created? {
        RowCreatedEntry(ctx, rows[|rows| - 1]);
      }
    }
  }

  /** Every entry an upload yields carries its project and user, has a non-negative amount that fits the column. */
  lemma InputEntriesSaved(ctx: Context, input: Input)
    ensures forall i :: 0 <= i < |InputEntries(ctx, input)| ==> SavedBy(ctx, InputEntries(ctx, input)[i])
    ensures (input.PdfText? || input.TextLines?) ==>
              forall i :: 0 <= i < |InputEntries(ctx, input)| ==> InputEntries(ctx, input)[i].accountName == GeneralAccount
  {
    match input
    case NoInput =>
    case PdfText(lines) => LinesEntriesSaved(ctx, lines);
    case TextLines(lines) => LinesEntriesSaved(ctx, lines);
    case CsvTable(rows) => RowsEntriesSaved(ctx, rows);
    case ExcelTable(rows) => RowsEntriesSaved(ctx, rows);
  }

  // ---------------------------------------------------------------------
  // Project aggregates after an upload

  /** An upload processed without a project (as the upload views do) changes no project's totals. */
  lemma UploadWithoutProjectLeavesTotals(ctx: Context, input: Input, before: seq<JournalEntry>, p: ProjectId)
    requires ctx.project == None
    ensures var after := before + InputEntries(ctx, input);
            TotalEntries(after, p) == TotalEntries(before, p)
            && TotalDebits(after, p) == TotalDebits(before, p)
            && TotalCredits(after, p) == TotalCredits(before, p)
            && NetAmount(after, p) == NetAmount(before, p)
  {
    InputEntriesSaved(ctx, input);
    UnattributedEntriesLeaveTotals(before, InputEntries(ctx, input), p);
  }

  lemma {:induction false} AllInProject(b: seq<JournalEntry>, p: ProjectId)
    requires forall i :: 0 <= i < |b| ==> b[i].project == Some(p)
    ensures ProjectEntries(b, p) == b
  {
    if b != [] {
      AllInProject(b[..|b| - 1], p);
      assert b[..|b| - 1] + [b[|b| - 1]] == b;
    }
  }

  /** An upload processed for project `p` adds each created entry to `p`'s count and its amount to the matching total. */
  lemma UploadForProjectAddsEntries(ctx: Context, input: Input, before: seq<JournalEntry>, p: ProjectId)
    requires ctx.project == Some(p)
    ensures var created := InputEntries(ctx, input);
            var after := before + created;
            TotalEntries(after, p) == TotalEntries(before, p) + |created|
            && TotalDebits(after, p) == TotalDebits(before, p) + SumOfType(created, Debit)
            && TotalCredits(after, p) == TotalCredits(before, p) + SumOfType(created, Credit)
            && TotalDebits(after, p) >= TotalDebits(before, p)
            && TotalCredits(after, p) >= TotalCredits(before, p)
  {
    var created := InputEntries(ctx, input);
    InputEntriesSaved(ctx, input);
    AllInProject(created, p);
    TotalsAppend(before, created, p);
    SumOfTypeBounds(created, Debit);
    SumOfTypeBounds(created, Credit);
  }
}
