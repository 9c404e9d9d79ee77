/** Where the two scripts meet: on records of the host that satisfy `BothSucceed` they emit
    corresponding rows, token for token and in the same order; some records outside it make
    them differ, as the lemmas at the end show. */
module Agreement {
  import opened Wrappers
  import opened Text
  import opened Dates
  import opened Metadata
  import S1 = TrackAaSubs
  import S2 = TrackAaSubsLoop

  /** A substitution field `(` ... `)` whose inside neither starts nor ends with a
      parenthesis, so stripping every edge parenthesis and dropping the two end characters
      agree. */
  predicate Parenthesised(s: string)
  {
    && |s| >= 2 && s[0] == '(' && s[|s| - 1] == ')'
    && var inner := s[1..|s| - 1];
       inner == [] || (inner[0] !in S1.Parens && inner[|inner| - 1] !in S1.Parens)
  }

  /** The condition on a record of the host under which both scripts keep it, neither raises
      and their rows agree: a present, non-empty lineage, a `/` in the location, a date of the
      right shape that is also a calendar date, and a parenthesised substitution field. */
  predicate BothSucceed(r: Record, host: string)
  {
    && r.host == Some(host)
    && r.pangoLineage.Some? && r.pangoLineage.value != ""
    && Count(r.location, '/') >= 1
    && IsDatePattern(r.collectionDate) && IsCalendarDate(ParseDate(r.collectionDate))
    && Parenthesised(r.aaSubstitutions)
  }

  /** An output row of each script describing the same substitution of the same record. */
  predicate Corresponds(o1: S1.OutRow, o2: S2.OutRow)
  {
    && o1.virusName == o2.virusName
    && o1.accessionId == o2.accessionId
    && o2.date.year < 10000 && o2.date.month < 100 && o2.date.day < 100
    && o1.collectionDate == FormatDate(o2.date)
    && o1.country == Some(o2.country)
    && Some(o1.pangoLineage) == o2.pangoLineage
    && o1.aaSubstitutions == o2.aaSub
  }

  predicate AllCorrespond(xs: seq<S1.OutRow>, ys: seq<S2.OutRow>)
  {
    |xs| == |ys| && forall k :: 0 <= k < |xs| ==> Corresponds(xs[k], ys[k])
  }

  /** On such a record the two scripts emit corresponding rows: same number, same tokens,
      same order, and the same virus name, accession, date, country and lineage. */
  lemma RowsAgree(r: Record, host: string)
    requires BothSucceed(r, host)
    ensures S2.RowOutput(r, host).Success?
    ensures AllCorrespond(S1.RowOutput(r, host), S2.RowOutput(r, host).value)
  {
    ParensAgree(r.aaSubstitutions);
    Script2Emits(r, host);
    var d := ParseDate(r.collectionDate);
    var tokens := SplitOn(S2.DropEnds(r.aaSubstitutions), ',');
    var out2 := S2.RowOutput(r, host).value;
    var out1 := S1.RowOutput(r, host);
    assert S1.Kept(r, host);
    var subs := S1.Substitutions(out1);
    SplitOnJoin(subs, ',');
    assert tokens == subs;
    FormatParseDate(r.collectionDate);
    forall k | 0 <= k < |out1| ensures Corresponds(out1[k], out2[k]) {
      assert out1[k].aaSubstitutions == subs[k];
    }
  }

  /** On a parenthesised field, stripping every edge parenthesis and dropping the two end
      characters give the same string. */
  lemma ParensAgree(aa: string)
    requires Parenthesised(aa)
    ensures StripChars(aa, S1.Parens) == S2.DropEnds(aa)
  {
    var inner := aa[1..|aa| - 1];
    assert aa == "(" + inner + ")";
    StripCharsExact("(", inner, ")", S1.Parens);
  }

  /** Script 2's pass on a record both accept: the rows of the date, the country and the
      tokens of the field with its two end characters dropped. */
  lemma Script2Emits(r: Record, host: string)
    requires BothSucceed(r, host)
    ensures |SplitOn(r.location, '/')| >= 2
    ensures S2.RowOutput(r, host) ==
              Success(S2.Emitted(ParseDate(r.collectionDate), Strip(SplitOn(r.location, '/')[1]),
                                 r, SplitOn(S2.DropEnds(r.aaSubstitutions), ',')))
  {
    FormatParseDate(r.collectionDate);
    assert S2.CheckDate(r.collectionDate) == Success(Some(ParseDate(r.collectionDate)));
  }

  /** A table whose records are either of another host or accepted by both scripts: script 2
      does not raise, and its output corresponds row for row to script 1's pipeline, which is
      script 1's output whenever its run does not raise (see `RunsAgree`). */
  lemma {:induction false} TablesAgree(table: seq<Record>, host: string)
    requires forall r :: r in table ==> r.host != Some(host) || BothSucceed(r, host)
    ensures S2.Track(table, host).Success?
    ensures AllCorrespond(S1.Track(table, host), S2.Track(table, host).value)
    decreases |table|
  {
    if table == [] {
      assert S2.Outcomes(table, host) == [];
      assert S1.Project(table) == [];
    } else {
      var init, last := table[..|table| - 1], table[|table| - 1];
      assert table == init + [last];
      assert forall r :: r in init ==> r in table;
      TablesAgree(init, host);
      AgreeSnoc(init, last, host);
    }
  }

  /** One more record, of another host or accepted by both, keeps the correspondence. */
  lemma AgreeSnoc(init: seq<Record>, last: Record, host: string)
    requires last.host != Some(host) || BothSucceed(last, host)
    requires S2.Track(init, host).Success?
    requires AllCorrespond(S1.Track(init, host), S2.Track(init, host).value)
    ensures S2.Track(init + [last], host).Success?
    ensures AllCorrespond(S1.Track(init + [last], host), S2.Track(init + [last], host).value)
  {
    S1.TrackConcat(init, [last], host);
    S1.TrackSingle(last, host);
    S2.TrackConcat(init, [last], host);
    S2.TrackSingle(last, host);
    var xs1, xs2 := S1.Track(init, host), S2.Track(init, host).value;
    var ys1 := S1.RowOutput(last, host);
    var ys2: seq<S2.OutRow> := [];
    if last.host != Some(host) {
      assert ys1 == [];
      assert S2.RowOutput(last, host) == Success([]);
    } else {
      RowsAgree(last, host);
      ys2 := S2.RowOutput(last, host).value;
    }
    assert S2.RowOutput(last, host) == Success(ys2);
    AllCorrespondConcat(xs1, xs2, ys1, ys2);
  }

  /** A table without a record of the host: script 1 raises a `KeyError` (at line 65 when no
      location has a `/`, at line 81 otherwise), while script 2 writes an empty table. The
      empty table is one of these. */
  lemma {:induction false} OtherHostTableDiverges(table: seq<Record>, host: string)
    requires forall k :: 0 <= k < |table| ==> table[k].host != Some(host)
    ensures S1.RunScript(table, host).Failure?
    ensures S2.Track(table, host) == Success([])
    decreases |table|
  {
    if table == [] {
      assert S2.Outcomes(table, host) == [];
    } else {
      var init, last := table[..|table| - 1], table[|table| - 1];
      OtherHostTableDiverges(init, host);
      assert table == init + [last] + [];
      assert init + [] == init;
      S2.OtherHostAddsNothing(init, last, [], host);
    }
  }

  /** The two whole runs on a table of records of another host or accepted by both: script 2
      does not raise; when script 1 does not raise either, the outputs correspond row for
      row; when it does, the table holds no record of the host and script 2 writes nothing. */
  lemma RunsAgree(table: seq<Record>, host: string)
    requires forall r :: r in table ==> r.host != Some(host) || BothSucceed(r, host)
    ensures S2.Track(table, host).Success?
    ensures S1.RunScript(table, host).Success? ==>
              AllCorrespond(S1.RunScript(table, host).value, S2.Track(table, host).value)
    ensures S1.RunScript(table, host).Failure? ==>
              (forall k :: 0 <= k < |table| ==> table[k].host != Some(host)) &&
              S2.Track(table, host) == Success([])
  {
    TablesAgree(table, host);
    if S1.RunScript(table, host).Failure? {
      forall k | 0 <= k < |table| ensures table[k].host != Some(host) {
        if table[k].host == Some(host) {
          assert table[k] in table;
          CountPositive(table[k].location, '/');
          assert S1.Selected(table[k], host);
        }
      }
      OtherHostTableDiverges(table, host);
    }
  }

  lemma AllCorrespondConcat(xs1: seq<S1.OutRow>, xs2: seq<S2.OutRow>,
                            ys1: seq<S1.OutRow>, ys2: seq<S2.OutRow>)
    requires AllCorrespond(xs1, xs2) && AllCorrespond(ys1, ys2)
    ensures AllCorrespond(xs1 + ys1, xs2 + ys2)
  {
    forall k | 0 <= k < |xs1| + |ys1|
      ensures Corresponds((xs1 + ys1)[k], (xs2 + ys2)[k])
    {
      if k >= |xs1| {
        assert (xs1 + ys1)[k] == ys1[k - |xs1|];
        assert (xs2 + ys2)[k] == ys2[k - |xs1|];
      }
    }
  }

  /** A missing lineage: script 1 drops the record, script 2 keeps it (it only skips the
      empty string). */
  lemma MissingLineageDiverges(r: Record, host: string)
    requires r.host == Some(host) && r.pangoLineage.None?
    requires Count(r.location, '/') >= 1
    requires IsDatePattern(r.collectionDate) && IsCalendarDate(ParseDate(r.collectionDate))
    ensures S1.RowOutput(r, host) == []
    ensures S2.RowOutput(r, host).Success? && S2.RowOutput(r, host).value != []
  {
    S2.RowOutputCases(r, host);
  }

  /** An empty-string lineage: script 1 keeps the record, script 2 skips it. */
  lemma EmptyLineageDiverges(r: Record, host: string)
    requires r.host == Some(host) && r.pangoLineage == Some("")
    requires IsDatePattern(r.collectionDate)
    ensures S1.RowOutput(r, host) != []
    ensures S2.RowOutput(r, host) == Success([])
  {
  }

  /** A date of the right shape that is not a calendar date (month 13, say): script 1 keeps
      the record, script 2 raises `ValueError` and writes nothing. */
  lemma CalendarDiverges(r: Record, host: string)
    requires r.host == Some(host) && r.pangoLineage.Some? && r.pangoLineage.value != ""
    requires IsDatePattern(r.collectionDate) && !IsCalendarDate(ParseDate(r.collectionDate))
    ensures S1.RowOutput(r, host) != []
    ensures S2.Track([r], host) == Failure(S2.DateValueError)
  {
    S2.RowOutputCases(r, host);
    S2.TrackSingle(r, host);
  }

  /** A location without `/`: when some other record (here one of another host) has a `/`,
      script 1's run keeps the record with no country, while script 2 raises `IndexError`
      and writes nothing. */
  lemma NoSlashDiverges(r0: Record, r: Record, host: string)
    requires r0.host != Some(host) && '/' in r0.location
    requires r.host == Some(host) && r.pangoLineage.Some? && r.pangoLineage.value != ""
    requires IsDatePattern(r.collectionDate) && IsCalendarDate(ParseDate(r.collectionDate))
    requires '/' !in r.location
    ensures S1.RunScript([r0, r], host) == Success(S1.RowOutput(r, host))
    ensures S1.RowOutput(r, host) != []
    ensures forall o :: o in S1.RowOutput(r, host) ==> o.country.None?
    ensures S2.Track([r0, r], host) == Failure(S2.LocationIndexError)
  {
    PairRunScript(r0, r, host);
    S1.TrackSingle(r, host);
    NoCountryRows(r, host);
    NoSlashRaises(r0, r, host);
  }

  /** A kept record whose location has no `/` gives script 1 rows without a country. */
  lemma NoCountryRows(r: Record, host: string)
    requires S1.Kept(r, host) && '/' !in r.location
    ensures S1.RowOutput(r, host) != []
    ensures forall o :: o in S1.RowOutput(r, host) ==> o.country.None?
  {
    CountPositive(r.location, '/');
    var out := S1.RowOutput(r, host);
    forall o | o in out ensures o.country.None? {
      var k :| 0 <= k < |out| && out[k] == o;
      assert o.country == S1.Cleaned(r).country;
    }
  }

  /** Script 2 raises `IndexError` on a table whose only record of the host has no `/`. */
  lemma NoSlashRaises(r0: Record, r: Record, host: string)
    requires r0.host != Some(host)
    requires r.host == Some(host) && r.pangoLineage != Some("")
    requires IsDatePattern(r.collectionDate) && IsCalendarDate(ParseDate(r.collectionDate))
    requires '/' !in r.location
    ensures S2.Track([r0, r], host) == Failure(S2.LocationIndexError)
  {
    CountPositive(r.location, '/');
    PairTrack(r0, r, host);
    S2.RowOutputCases(r, host);
    S2.TrackSingle(r, host);
  }

  /** Script 1 on a record of another host with a `/` followed by a selected record: the run
      does not raise and outputs what the second record contributes. */
  lemma PairRunScript(r0: Record, r: Record, host: string)
    requires r0.host != Some(host) && '/' in r0.location
    requires S1.Selected(r, host)
    ensures S1.RunScript([r0, r], host) == Success(S1.Track([r], host))
  {
    S1.RunScriptSucceeds([r0, r], host, 0, 1);
    PairPipeline(r0, r, host);
  }

  /** Script 1's pipeline drops a leading record of another host. */
  lemma PairPipeline(r0: Record, r: Record, host: string)
    requires r0.host != Some(host)
    ensures S1.Track([r0, r], host) == S1.Track([r], host)
  {
    assert [r0, r] == [r0] + [r];
    S1.TrackConcat([r0], [r], host);
    S1.TrackSingle(r0, host);
    assert [] + S1.Track([r], host) == S1.Track([r], host);
  }

  /** Script 2 on a record of another host followed by any record: the run is the second
      record's. */
  lemma PairTrack(r0: Record, r: Record, host: string)
    requires r0.host != Some(host)
    ensures S2.Track([r0, r], host) == S2.Track([r], host)
  {
    assert [] + [r0] + [r] == [r0, r] && [] + [r] == [r];
    S2.OtherHostAddsNothing([], r0, [r], host);
  }

  /** Doubled parentheses: script 1 strips them all, script 2 only the outer pair. */
  lemma DoubledParensDiverge(x: string)
    requires x == [] || (x[0] !in S1.Parens && x[|x| - 1] !in S1.Parens)
    ensures StripChars("((" + x + "))", S1.Parens) == x
    ensures S2.DropEnds("((" + x + "))") == "(" + x + ")"
  {
    StripCharsExact("((", x, "))", S1.Parens);
    var s := "((" + x + "))";
    assert s[1..|s| - 1] == "(" + x + ")";
  }
}
