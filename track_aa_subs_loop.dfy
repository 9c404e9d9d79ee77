/** `gisaid_track_aa_subs_2.py`: `check_date` and the row loop of `main`, which visits the
    table row by row, skips rows with `continue` and appends one output row per substitution. */
module TrackAaSubsLoop {
  import opened Wrappers
  import opened Text
  import opened Dates
  import opened Metadata

  /** The exceptions that stop the loop: `strptime` rejecting a date of the right shape
      (`ValueError`), and a location without `/` indexed at 1 (`IndexError`). */
  datatype Error = DateValueError | LocationIndexError

  /** One appended row: `Date`, `Country`, `Virus_name`, `Accession_ID`, `Pango_lineage` and
      the substitution. The lineage is copied as read, so it may be missing. */
  datatype OutRow = OutRow(
    date: Date,
    country: string,
    virusName: string,
    accessionId: string,
    pangoLineage: Option<string>,
    aaSub: string)

  /** `check_date`: no date for a string that does not have the `dddd-dd-dd` shape; for one
      that does, the date whose year, month and day are its three digit groups, or the
      `ValueError` of `strptime` when those do not form a calendar date. */
  function CheckDate(s: string): (r: Result<Option<Date>, Error>)
    ensures r == Success(None) <==> !IsDatePattern(s)
    ensures r.Failure? <==> IsDatePattern(s) && !IsCalendarDate(ParseDate(s))
    ensures r.Failure? ==> r.error == DateValueError
    ensures r.Success? && r.value.Some? ==>
              IsCalendarDate(r.value.value) && r.value.value.year < 10000 &&
              r.value.value.month < 100 && r.value.value.day < 100 &&
              FormatDate(r.value.value) == s
  {
    if !IsDatePattern(s) then Success(None)
    else
      var d := ParseDate(s);
      FormatParseDate(s);
      if IsCalendarDate(d) then Success(Some(d)) else Failure(DateValueError)
  }

  /** The slice `s[1:len(s)-1]`: the first and last characters go, whatever they are; a
      string shorter than two characters becomes empty. */
  function DropEnds(s: string): (r: string)
    ensures |s| >= 2 ==> s == [s[0]] + r + [s[|s| - 1]]
    ensures |s| < 2 ==> r == ""
  {
    if |s| < 2 then "" else s[1..|s| - 1]
  }

  /** The rows appended for one surviving record, one per token, in token order. */
  function Emitted(d: Date, country: string, r: Record, tokens: seq<string>): (out: seq<OutRow>)
    ensures |out| == |tokens|
    ensures forall k :: 0 <= k < |out| ==>
              out[k] == OutRow(d, country, r.virusName, r.accessionId, r.pangoLineage, tokens[k])
  {
    if tokens == [] then []
    else Emitted(d, country, r, tokens[..|tokens| - 1]) +
         [OutRow(d, country, r.virusName, r.accessionId, r.pangoLineage, tokens[|tokens| - 1])]
  }

  /** A record that gets past the three `continue` tests of lines 84-92: the host matches,
      the lineage is not the empty string, and the date has the `dddd-dd-dd` shape. */
  predicate Screened(r: Record, host: string)
  {
    r.host == Some(host) && r.pangoLineage != Some("") && IsDatePattern(r.collectionDate)
  }

  /** One pass of the loop body (lines 84-106) on one record: what it appends, or the
      exception it raises. */
  function RowOutput(r: Record, host: string): (out: Result<seq<OutRow>, Error>)
    ensures !Screened(r, host) ==> out == Success([])
  {
    if r.host != Some(host) then Success([])
    else if r.pangoLineage == Some("") then Success([])
    else match CheckDate(r.collectionDate)
      case Failure(e) => Failure(e)
      case Success(None) => Success([])
      case Success(Some(d)) =>
        var parts := SplitOn(r.location, '/');
        if |parts| < 2 then Failure(LocationIndexError)
        else
          var aas := SplitOn(DropEnds(r.aaSubstitutions), ',');
          Success(Emitted(d, Strip(parts[1]), r, aas))
  }

  /** The outcomes of one pass of the loop body. A screened record whose date is not a
      calendar date raises `ValueError`; one whose location has no `/` raises `IndexError`;
      otherwise it appends one row per token of its substitution field, never none (so the
      `aas is None` test of line 97 never fires), all sharing the record's date, country,
      virus name, accession and lineage. */
  lemma RowOutputCases(r: Record, host: string)
    ensures RowOutput(r, host) == Failure(DateValueError) <==>
              Screened(r, host) && !IsCalendarDate(ParseDate(r.collectionDate))
    ensures RowOutput(r, host) == Failure(LocationIndexError) <==>
              Screened(r, host) && IsCalendarDate(ParseDate(r.collectionDate)) &&
              Count(r.location, '/') == 0
    ensures RowOutput(r, host).Success? && RowOutput(r, host).value != [] <==>
              Screened(r, host) && IsCalendarDate(ParseDate(r.collectionDate)) &&
              Count(r.location, '/') >= 1
    ensures RowOutput(r, host).Success? && RowOutput(r, host).value != [] ==>
              var out := RowOutput(r, host).value;
              && |out| == Count(DropEnds(r.aaSubstitutions), ',') + 1
              && forall k :: 0 <= k < |out| ==>
                   && FormatDate(out[k].date) == r.collectionDate
                   && Some(out[k].country) == Country(r.location)
                   && out[k].virusName == r.virusName
                   && out[k].accessionId == r.accessionId
                   && out[k].pangoLineage == r.pangoLineage
  {
  }

  /** One more iteration after the rows so far: an earlier exception stands, a new one
      replaces the output, otherwise the record's rows are appended. */
  function Step(sofar: Result<seq<OutRow>, Error>, more: Result<seq<OutRow>, Error>)
    : Result<seq<OutRow>, Error>
  {
    if sofar.Failure? then sofar
    else if more.Failure? then more
    else Success(sofar.value + more.value)
  }

  /** The iterations over a sequence of per-record outcomes, in order: the concatenation of
      the appended rows, or the first exception. */
  function Collect(outcomes: seq<Result<seq<OutRow>, Error>>): (r: Result<seq<OutRow>, Error>)
    ensures r.Failure? <==> exists i :: 0 <= i < |outcomes| && outcomes[i].Failure?
  {
    if outcomes == [] then Success([])
    else
      var init := outcomes[..|outcomes| - 1];
      assert forall i :: 0 <= i < |init| ==> init[i] == outcomes[i];
      Step(Collect(init), outcomes[|outcomes| - 1])
  }

  /** The outcome of the loop body on each record of the table. */
  function Outcomes(table: seq<Record>, host: string): (o: seq<Result<seq<OutRow>, Error>>)
    ensures |o| == |table|
  {
    seq(|table|, i requires 0 <= i < |table| => RowOutput(table[i], host))
  }

  /** The loop over rows `0 .. |table|`, as a function of the table: the concatenated appends,
      or the first exception, which ends the run before anything is written. */
  function Track(table: seq<Record>, host: string): (r: Result<seq<OutRow>, Error>)
    ensures r.Failure? <==> exists i :: 0 <= i < |table| && RowOutput(table[i], host).Failure?
  {
    var o := Outcomes(table, host);
    assert forall i :: 0 <= i < |o| ==> o[i] == RowOutput(table[i], host);
    Collect(o)
  }

  lemma OutcomesConcat(a: seq<Record>, b: seq<Record>, host: string)
    ensures Outcomes(a + b, host) == Outcomes(a, host) + Outcomes(b, host)
  {
    var p, pa, pb := Outcomes(a + b, host), Outcomes(a, host), Outcomes(b, host);
    forall i | 0 <= i < |p| ensures p[i] == (pa + pb)[i] {
      if i < |a| { assert (a + b)[i] == a[i]; } else { assert (a + b)[i] == b[i - |a|]; }
    }
  }

  /** Chaining iterations is associative: it does not matter how the rows are grouped. */
  lemma StepAssociative(x: Result<seq<OutRow>, Error>, y: Result<seq<OutRow>, Error>,
                        z: Result<seq<OutRow>, Error>)
    ensures Step(Step(x, y), z) == Step(x, Step(y, z))
  {
    if x.Success? && y.Success? && z.Success? {
      assert x.value + y.value + z.value == x.value + (y.value + z.value);
    }
  }

  /** The iterations over `x + y` are those over `x` followed by those over `y`. */
  lemma {:induction false} CollectConcat(x: seq<Result<seq<OutRow>, Error>>,
                                         y: seq<Result<seq<OutRow>, Error>>)
    ensures Collect(x + y) == Step(Collect(x), Collect(y))
    decreases |y|
  {
    if y == [] {
      assert x + y == x;
      if Collect(x).Success? {
        assert Collect(x).value + [] == Collect(x).value;
      }
    } else {
      var init, last := y[..|y| - 1], y[|y| - 1];
      assert (x + y)[..|x + y| - 1] == x + init;
      assert (x + y)[|x + y| - 1] == last;
      CollectConcat(x, init);
      StepAssociative(Collect(x), Collect(init), last);
    }
  }

  /** The run over `a + b` is the run over `a` followed by the run over `b`: the rows of a
      record come after those of every earlier record and before those of every later one,
      earlier rows are never changed, and the first exception decides a failing run. */
  lemma TrackConcat(a: seq<Record>, b: seq<Record>, host: string)
    ensures Track(a + b, host) == Step(Track(a, host), Track(b, host))
  {
    OutcomesConcat(a, b, host);
    CollectConcat(Outcomes(a, host), Outcomes(b, host));
  }

  /** Once a prefix of the table has raised, the whole run raises the same exception. */
  lemma TrackFailurePersists(table: seq<Record>, i: nat, host: string)
    requires i <= |table| && Track(table[..i], host).Failure?
    ensures Track(table, host) == Track(table[..i], host)
  {
    assert table == table[..i] + table[i..];
    TrackConcat(table[..i], table[i..], host);
  }

  /** On a one-record table the run is that record's pass of the loop body. */
  lemma TrackSingle(r: Record, host: string)
    ensures Track([r], host) == RowOutput(r, host)
  {
    var o := Outcomes([r], host);
    assert o == [RowOutput(r, host)];
    assert o[..0] == [];
    assert Collect(o) == Step(Collect([]), RowOutput(r, host));
    if RowOutput(r, host).Success? {
      assert [] + RowOutput(r, host).value == RowOutput(r, host).value;
    }
  }

  /** A record whose host is not `host` adds nothing, wherever it stands in the table. */
  lemma OtherHostAddsNothing(a: seq<Record>, r: Record, b: seq<Record>, host: string)
    requires r.host != Some(host)
    ensures Track(a + [r] + b, host) == Track(a + b, host)
  {
    TrackConcat(a + [r], b, host);
    TrackConcat(a, [r], host);
    TrackConcat(a, b, host);
    TrackSingle(r, host);
    if Track(a, host).Success? {
      assert Track(a, host).value + [] == Track(a, host).value;
    }
  }

  /** `check_date` on three inputs: a well-formed date, a pattern-valid month 13
      that makes `strptime` raise, and a date without zero padding that is rejected. */
  lemma CheckDateExamples()
    ensures CheckDate("2021-04-28") == Success(Some(Date(2021, 4, 28)))
    ensures CheckDate("2021-13-99") == Failure(DateValueError)
    ensures CheckDate("2021-4-28") == Success(None)
  {
    var s := "2021-04-28";
    assert s[0..4] == "2021" && s[5..7] == "04" && s[8..10] == "28";
    assert DigitsValue("2021") == 2021 by {
      assert "2021"[..3] == "202" && "202"[..2] == "20" && "20"[..1] == "2";
    }
    assert DigitsValue("04") == 4 by { assert "04"[..1] == "0"; }
    assert DigitsValue("28") == 28 by { assert "28"[..1] == "2"; }
    DatePatternExamples();
  }

  /** Extending the table by one record extends the run by one pass of the loop body. */
  lemma TrackSnoc(table: seq<Record>, i: nat, host: string)
    requires i < |table|
    ensures Track(table[..i + 1], host) == Step(Track(table[..i], host), RowOutput(table[i], host))
  {
    assert table[..i + 1] == table[..i] + [table[i]];
    TrackConcat(table[..i], [table[i]], host);
    TrackSingle(table[i], host);
  }

  /** The inner loop of lines 100-106: one appended row per token, in token order. */
  method AppendRows(df2: seq<OutRow>, d: Date, country: string, row: Record, aas: seq<string>)
    returns (out: seq<OutRow>)
    ensures out == df2 + Emitted(d, country, row, aas)
  {
    out := df2;
    var j := 0;
    while j < |aas|
      invariant 0 <= j <= |aas|
      invariant out == df2 + Emitted(d, country, row, aas[..j])
    {
      out := out + [OutRow(d, country, row.virusName, row.accessionId, row.pangoLineage, aas[j])];
      assert aas[..j + 1][..j] == aas[..j];
      j := j + 1;
    }
    assert aas[..j] == aas;
  }

  /** `main`'s loop (lines 80-106), without the progress printing and the file I/O. */
  method Run(table: seq<Record>, host: string) returns (result: Result<seq<OutRow>, Error>)
    ensures result == Track(table, host)
  {
    var df2: seq<OutRow> := [];
    var i := 0;
    while i < |table|
      invariant 0 <= i <= |table|
      invariant Track(table[..i], host) == Success(df2)
    {
      var row := table[i];
      TrackSnoc(table, i, host);
      i := i + 1;
      if row.host != Some(host) {
        assert df2 + [] == df2;
        continue;
      }
      if row.pangoLineage == Some("") {
        assert df2 + [] == df2;
        continue;
      }
      var date := CheckDate(row.collectionDate);
      if date.Failure? {
        TrackFailurePersists(table, i, host);
        return Failure(date.error);
      }
      if date.value.None? {
        assert df2 + [] == df2;
        continue;
      }
      var parts := SplitOn(row.location, '/');
      if |parts| < 2 {
        TrackFailurePersists(table, i, host);
        return Failure(LocationIndexError);
      }
      var country := Strip(parts[1]);
      var aas := SplitOn(DropEnds(row.aaSubstitutions), ',');
      df2 := AppendRows(df2, date.value.value, country, row, aas);
    }
    assert table[..i] == table;
    return Success(df2);
  }
}
