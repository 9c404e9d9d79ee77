/** The vectorised pipeline of `gisaid_track_aa_subs.py`: a chain of whole-table filters and
    column maps ending in one explode, each step a function over a sequence of rows. */
module TrackAaSubs {
  import opened Wrappers
  import opened Text
  import opened Dates
  import opened Metadata

  /** The working table after the column projection and the country derivation: the seven
      projected columns and the raw (not yet stripped) `Country` column. */
  datatype Row = Row(rec: Record, country: Option<string>)

  /** An output row: `Virus name`, `Accession ID`, `Collection date`, `Country`,
      `Pango lineage`, `AA Substitutions`. Before the explode the last column holds the whole
      substitution list, after it one substitution. `Location` and `Host` are not columns. */
  datatype OutRow = OutRow(
    virusName: string,
    accessionId: string,
    collectionDate: string,
    country: Option<string>,
    pangoLineage: string,
    aaSubstitutions: string)

  /** The characters `str.strip("()")` removes. */
  const Parens: set<char> := {'(', ')'}

  /** Boolean-mask selection (`df[mask]`, `dropna`): the rows `keep` accepts, in table order. */
  function Filter<T(!new)>(s: seq<T>, keep: T -> bool): (r: seq<T>)
    ensures |r| <= |s|
    ensures forall x :: x in r <==> x in s && keep(x)
  {
    if s == [] then [] else (if keep(s[0]) then [s[0]] else []) + Filter(s[1..], keep)
  }

  /** Selection works row by row: filtering a concatenation filters each part. */
  lemma {:induction false} FilterConcat<T(!new)>(a: seq<T>, b: seq<T>, keep: T -> bool)
    ensures Filter(a + b, keep) == Filter(a, keep) + Filter(b, keep)
  {
    if a != [] {
      assert (a + b)[0] == a[0];
      assert (a + b)[1..] == a[1..] + b;
      FilterConcat(a[1..], b, keep);
    } else {
      assert a + b == b;
    }
  }

  /** Lines 59-65 for one row: keep the seven columns and add the piece at index 1 of the
      location split on `/` (missing when there is no such piece). */
  function ProjectRow(r: Record): (row: Row)
    ensures row.rec == r
    ensures row.country.Some? <==> Count(r.location, '/') >= 1
  {
    var parts := SplitOn(r.location, '/');
    Row(r, if |parts| >= 2 then Some(parts[1]) else None)
  }

  /** Lines 59-65 over the table: one working row per record, in table order. */
  function Project(table: seq<Record>): (df: seq<Row>)
    ensures |df| == |table|
    ensures forall i :: 0 <= i < |df| ==>
              df[i].rec == table[i] && (df[i].country.Some? <==> Count(table[i].location, '/') >= 1)
  {
    seq(|table|, i requires 0 <= i < |table| => ProjectRow(table[i]))
  }

  /** Line 70 for one row: drop `Location` and `Host`. */
  function Narrow(row: Row): OutRow
    requires row.rec.pangoLineage.Some?
  {
    OutRow(row.rec.virusName, row.rec.accessionId, row.rec.collectionDate, row.country,
           row.rec.pangoLineage.value, row.rec.aaSubstitutions)
  }

  /** Line 70 over the table: every row keeps all its columns but `Location` and `Host`. */
  function DropLocationHost(df: seq<Row>): (out: seq<OutRow>)
    requires forall x :: x in df ==> x.rec.pangoLineage.Some?
    ensures |out| == |df|
    ensures forall i :: 0 <= i < |out| ==>
              && out[i].virusName == df[i].rec.virusName
              && out[i].accessionId == df[i].rec.accessionId
              && out[i].collectionDate == df[i].rec.collectionDate
              && out[i].country == df[i].country
              && Some(out[i].pangoLineage) == df[i].rec.pangoLineage
              && out[i].aaSubstitutions == df[i].rec.aaSubstitutions
  {
    seq(|df|, i requires 0 <= i < |df| => Narrow(df[i]))
  }

  /** Lines 81-82 for one row: strip whitespace from the country and every leading and
      trailing parenthesis from the substitution list. */
  function CleanRow(row: OutRow): (out: OutRow)
    ensures out.(country := row.country, aaSubstitutions := row.aaSubstitutions) == row
    ensures out.country.Some? <==> row.country.Some?
    ensures out.aaSubstitutions == [] || (out.aaSubstitutions[0] !in Parens &&
              out.aaSubstitutions[|out.aaSubstitutions| - 1] !in Parens)
  {
    row.(country := if row.country.Some? then Some(Strip(row.country.value)) else None,
         aaSubstitutions := StripChars(row.aaSubstitutions, Parens))
  }

  /** Lines 81-82 over the table: row by row, only the country and the substitution list
      change, and no list starts or ends with a parenthesis any more. */
  function CleanUp(df: seq<OutRow>): (out: seq<OutRow>)
    ensures |out| == |df|
    ensures forall i :: 0 <= i < |out| ==>
              out[i].(country := df[i].country, aaSubstitutions := df[i].aaSubstitutions) == df[i]
    ensures forall i :: 0 <= i < |out| ==>
              var list := out[i].aaSubstitutions;
              list == [] || (list[0] !in Parens && list[|list| - 1] !in Parens)
  {
    seq(|df|, i requires 0 <= i < |df| => CleanRow(df[i]))
  }

  /** The substitution column of a table. */
  function Substitutions(df: seq<OutRow>): seq<string>
  {
    seq(|df|, i requires 0 <= i < |df| => df[i].aaSubstitutions)
  }

  /** Lines 86-88 for one row: split the substitution list on `,` and emit one row per token.
      k commas give k + 1 rows; they agree with the input row on every other column, no
      token holds a comma, and joining the tokens with `,` rebuilds the list. */
  function ExplodeRow(row: OutRow): (out: seq<OutRow>)
    ensures |out| == Count(row.aaSubstitutions, ',') + 1
    ensures forall k :: 0 <= k < |out| ==> out[k].(aaSubstitutions := row.aaSubstitutions) == row
    ensures forall k :: 0 <= k < |out| ==> ',' !in out[k].aaSubstitutions
    ensures Join(Substitutions(out), ',') == row.aaSubstitutions
  {
    var tokens := SplitOn(row.aaSubstitutions, ',');
    var out := seq(|tokens|, k requires 0 <= k < |tokens| => row.(aaSubstitutions := tokens[k]));
    assert Substitutions(out) == tokens;
    JoinSplitOn(row.aaSubstitutions, ',');
    out
  }

  /** The explode over the whole table: each row's tokens, rows in table order. Every output
      row is an input row with one comma-free token in place of its list, and no input row
      vanishes. */
  function Explode(df: seq<OutRow>): (out: seq<OutRow>)
    ensures |out| >= |df|
    ensures forall o :: o in out ==> ',' !in o.aaSubstitutions
    ensures forall o :: o in out ==>
              exists i :: 0 <= i < |df| && o.(aaSubstitutions := df[i].aaSubstitutions) == df[i]
  {
    if df == [] then []
    else
      var first, rest := ExplodeRow(df[0]), Explode(df[1..]);
      assert forall o :: o in first ==> o.(aaSubstitutions := df[0].aaSubstitutions) == df[0] by {
        forall o | o in first ensures o.(aaSubstitutions := df[0].aaSubstitutions) == df[0] {
          var k :| 0 <= k < |first| && first[k] == o;
        }
      }
      assert forall o :: o in rest ==>
               exists i :: 0 <= i < |df| && o.(aaSubstitutions := df[i].aaSubstitutions) == df[i] by {
        forall o | o in rest
          ensures exists i :: 0 <= i < |df| && o.(aaSubstitutions := df[i].aaSubstitutions) == df[i]
        {
          var j :| 0 <= j < |df[1..]| && o.(aaSubstitutions := df[1..][j].aaSubstitutions) == df[1..][j];
          assert df[1..][j] == df[j + 1];
        }
      }
      first + rest
  }

  lemma {:induction false} ExplodeConcat(a: seq<OutRow>, b: seq<OutRow>)
    ensures Explode(a + b) == Explode(a) + Explode(b)
  {
    if a != [] {
      assert (a + b)[0] == a[0];
      assert (a + b)[1..] == a[1..] + b;
      ExplodeConcat(a[1..], b);
    } else {
      assert a + b == b;
    }
  }

  /** The mask of line 67: the host cell equals `host` exactly. */
  function HostIs(host: string): Row -> bool
  {
    (x: Row) => x.rec.host == Some(host)
  }

  /** The mask of line 68: the lineage cell is present. */
  function HasLineage(): Row -> bool
  {
    (x: Row) => x.rec.pangoLineage.Some?
  }

  /** The mask of line 75: the collection date has the `dddd-dd-dd` shape. */
  function HasDateShape(): OutRow -> bool
  {
    (x: OutRow) => IsDatePattern(x.collectionDate)
  }

  /** `main` without the argument parsing and the file I/O: the table the script writes for a
      metadata table and a host. */
  function Track(table: seq<Record>, host: string): (out: seq<OutRow>)
    ensures forall o :: o in out ==> IsDatePattern(o.collectionDate) && ',' !in o.aaSubstitutions
  {
    var projected := Project(table);
    var hosts := Filter(projected, HostIs(host));
    var lineages := Filter(hosts, HasLineage());
    var narrowed := DropLocationHost(lineages);
    var dated := Filter(narrowed, HasDateShape());
    DatesSurvive(dated);
    Explode(CleanUp(dated))
  }

  /** Lines 81-88 leave the collection date alone: rows with a well-shaped date give output
      rows with a well-shaped date. */
  lemma DatesSurvive(df: seq<OutRow>)
    requires forall x :: x in df ==> HasDateShape()(x)
    ensures forall o :: o in Explode(CleanUp(df)) ==> IsDatePattern(o.collectionDate)
  {
    var cleaned := CleanUp(df);
    forall o | o in Explode(cleaned) ensures IsDatePattern(o.collectionDate) {
      var i :| 0 <= i < |cleaned| && o.(aaSubstitutions := cleaned[i].aaSubstitutions) == cleaned[i];
      assert cleaned[i].collectionDate == df[i].collectionDate;
      assert df[i] in df;
    }
  }

  /** The three filters of lines 67, 68 and 75, on one input row: the host equals `host`
      exactly (case included), the lineage is present, the date has the `dddd-dd-dd` shape. */
  predicate Kept(r: Record, host: string)
  {
    r.host == Some(host) && r.pangoLineage.Some? && IsDatePattern(r.collectionDate)
  }

  /** A kept row before the explode, built directly from the input row. */
  function Cleaned(r: Record): (out: OutRow)
    requires r.pangoLineage.Some?
  {
    OutRow(r.virusName, r.accessionId, r.collectionDate, Country(r.location),
           r.pangoLineage.value, StripChars(r.aaSubstitutions, Parens))
  }

  /** What one input row contributes to the output, defined independently of the chain of
      whole-table steps. */
  function RowOutput(r: Record, host: string): (out: seq<OutRow>)
    ensures |out| > 0 <==> Kept(r, host)
    ensures Kept(r, host) ==> |out| == Count(StripChars(r.aaSubstitutions, Parens), ',') + 1
    ensures Kept(r, host) ==> forall k :: 0 <= k < |out| ==>
              out[k].(aaSubstitutions := Cleaned(r).aaSubstitutions) == Cleaned(r)
    ensures Kept(r, host) ==> Join(Substitutions(out), ',') == StripChars(r.aaSubstitutions, Parens)
  {
    if Kept(r, host) then ExplodeRow(Cleaned(r)) else []
  }

  /** On a one-row table the pipeline produces exactly that row's contribution. */
  lemma TrackSingle(r: Record, host: string)
    ensures Track([r], host) == RowOutput(r, host)
  {
    var row := ProjectRow(r);
    assert Project([r]) == [row];
    var hosts := Filter([row], HostIs(host));
    assert hosts == if r.host == Some(host) then [row] else [];
    var lineages := Filter(hosts, HasLineage());
    assert lineages == if r.host == Some(host) && r.pangoLineage.Some? then [row] else [];
    if r.host == Some(host) && r.pangoLineage.Some? {
      var narrowed := DropLocationHost(lineages);
      assert narrowed == [Narrow(row)];
      var dated := Filter(narrowed, HasDateShape());
      assert dated == if IsDatePattern(r.collectionDate) then [Narrow(row)] else [];
      if IsDatePattern(r.collectionDate) {
        assert CleanUp(dated) == [CleanRow(Narrow(row))];
        assert CleanRow(Narrow(row)) == Cleaned(r);
        assert Explode([Cleaned(r)]) == ExplodeRow(Cleaned(r)) + Explode([]);
      } else {
        assert CleanUp(dated) == [];
      }
    } else {
      assert DropLocationHost(lineages) == [];
    }
  }

  /** Every step works row by row, so the output of a concatenation is the concatenation of
      the outputs: surviving rows keep their input order and the rows exploded from one input
      row are contiguous. */
  lemma TrackConcat(a: seq<Record>, b: seq<Record>, host: string)
    ensures Track(a + b, host) == Track(a, host) + Track(b, host)
  {
    var hostOk, lineageOk, dateOk := HostIs(host), HasLineage(), HasDateShape();
    ProjectConcat(a, b);
    FilterConcat(Project(a), Project(b), hostOk);
    var ha, hb := Filter(Project(a), hostOk), Filter(Project(b), hostOk);
    FilterConcat(ha, hb, lineageOk);
    var la, lb := Filter(ha, lineageOk), Filter(hb, lineageOk);
    DropLocationHostConcat(la, lb);
    var na, nb := DropLocationHost(la), DropLocationHost(lb);
    FilterConcat(na, nb, dateOk);
    var da, db := Filter(na, dateOk), Filter(nb, dateOk);
    CleanUpConcat(da, db);
    ExplodeConcat(CleanUp(da), CleanUp(db));
  }

  lemma ProjectConcat(a: seq<Record>, b: seq<Record>)
    ensures Project(a + b) == Project(a) + Project(b)
  {
    var p, pa, pb := Project(a + b), Project(a), Project(b);
    forall i | 0 <= i < |p| ensures p[i] == (pa + pb)[i] {
      if i < |a| { assert (a + b)[i] == a[i]; } else { assert (a + b)[i] == b[i - |a|]; }
    }
  }

  lemma DropLocationHostConcat(a: seq<Row>, b: seq<Row>)
    requires forall x :: x in a ==> x.rec.pangoLineage.Some?
    requires forall x :: x in b ==> x.rec.pangoLineage.Some?
    ensures DropLocationHost(a + b) == DropLocationHost(a) + DropLocationHost(b)
  {
    var p, pa, pb := DropLocationHost(a + b), DropLocationHost(a), DropLocationHost(b);
    forall i | 0 <= i < |p| ensures p[i] == (pa + pb)[i] {
      if i < |a| { assert (a + b)[i] == a[i]; } else { assert (a + b)[i] == b[i - |a|]; }
    }
  }

  lemma CleanUpConcat(a: seq<OutRow>, b: seq<OutRow>)
    ensures CleanUp(a + b) == CleanUp(a) + CleanUp(b)
  {
    var p, pa, pb := CleanUp(a + b), CleanUp(a), CleanUp(b);
    forall i | 0 <= i < |p| ensures p[i] == (pa + pb)[i] {
      if i < |a| { assert (a + b)[i] == a[i]; } else { assert (a + b)[i] == b[i - |a|]; }
    }
  }

  /** The per-row contributions concatenated in table order: the flat-map the chain of
      whole-table steps amounts to. */
  function RowsOutput(table: seq<Record>, host: string): seq<OutRow>
  {
    if table == [] then [] else RowOutput(table[0], host) + RowsOutput(table[1..], host)
  }

  /** The pipeline is the flat-map of the per-row contribution over the table. */
  lemma {:induction false} TrackByRows(table: seq<Record>, host: string)
    ensures Track(table, host) == RowsOutput(table, host)
  {
    if table != [] {
      assert table == [table[0]] + table[1..];
      TrackConcat([table[0]], table[1..], host);
      TrackSingle(table[0], host);
      TrackByRows(table[1..], host);
    }
  }

  /** The host match is exact: a `human` row does not survive a `Human` filter. */
  lemma HostIsCaseSensitive(r: Record)
    requires r.host == Some("human")
    ensures Track([r], "Human") == []
  {
    TrackSingle(r, "Human");
  }

  /** An empty substitution list `()` is stripped to the empty string, which splits into one
      empty token: a kept row yields exactly one output row, with an empty substitution. */
  lemma EmptySubstitutionList(r: Record, host: string)
    requires Kept(r, host) && r.aaSubstitutions == "()"
    ensures Cleaned(r).aaSubstitutions == ""
    ensures RowOutput(r, host) == [Cleaned(r)]
  {
    StripCharsExact("(", "", ")", Parens);
    assert "(" + "" + ")" == "()";
    var out := RowOutput(r, host);
    assert |out| == 1;
    assert out[0].(aaSubstitutions := "") == Cleaned(r);
    assert Join(Substitutions(out), ',') == out[0].aaSubstitutions;
  }

  /** A kept record whose field is `(` t1 `,` ... `,` tn `)`
      yields the tokens t1 ... tn, one row each, in that order. */
  lemma SubstitutionTokens(r: Record, host: string, tokens: seq<string>)
    requires Kept(r, host)
    requires |tokens| > 0 && forall i :: 0 <= i < |tokens| ==> ',' !in tokens[i]
    requires var list := Join(tokens, ',');
             list == [] || (list[0] !in Parens && list[|list| - 1] !in Parens)
    requires r.aaSubstitutions == "(" + Join(tokens, ',') + ")"
    ensures Substitutions(RowOutput(r, host)) == tokens
  {
    StripCharsExact("(", Join(tokens, ','), ")", Parens);
    SplitOnJoin(tokens, ',');
    SplitOnJoin(Substitutions(RowOutput(r, host)), ',');
  }

  /** A record that passes the host mask of line 67 and the `dropna` of line 68. */
  predicate Selected(r: Record, host: string)
  {
    r.host == Some(host) && r.pangoLineage.Some?
  }

  /** The frame left by lines 67-68 is empty exactly when no record is selected. */
  lemma SelectionEmpty(table: seq<Record>, host: string)
    ensures Filter(Filter(Project(table), HostIs(host)), HasLineage()) == [] <==>
              forall k :: 0 <= k < |table| ==> !Selected(table[k], host)
  {
    var p := Project(table);
    var sel := Filter(Filter(p, HostIs(host)), HasLineage());
    if sel != [] {
      assert sel[0] in sel;
      var k :| 0 <= k < |p| && p[k] == sel[0];
      assert Selected(table[k], host);
    }
    forall k | 0 <= k < |table| && Selected(table[k], host) ensures sel != [] {
      assert p[k] in p;
      assert p[k] in sel;
    }
  }

  /** The two `KeyError`s the script can raise. `CountryColumnMissing`: no location of the
      whole table has a `/`, so the split of line 65 has no column 1. `CountryColumnDropped`:
      no record survives lines 67-68, so the mask that line 75 builds is an empty column of
      object type, which pandas takes as an empty list of column labels rather than as a
      boolean mask; the selection keeps no column and line 81 finds no `Country`. */
  datatype Error = CountryColumnMissing | CountryColumnDropped

  /** The script's run on a table: the pipeline's output, or the first `KeyError`. */
  function RunScript(table: seq<Record>, host: string): (r: Result<seq<OutRow>, Error>)
    ensures r == Failure(CountryColumnMissing) <==>
              forall k :: 0 <= k < |table| ==> '/' !in table[k].location
    ensures r == Failure(CountryColumnDropped) <==>
              (exists k :: 0 <= k < |table| && '/' in table[k].location) &&
              forall k :: 0 <= k < |table| ==> !Selected(table[k], host)
    ensures r.Success? <==>
              (exists k :: 0 <= k < |table| && '/' in table[k].location) &&
              (exists k :: 0 <= k < |table| && Selected(table[k], host))
    ensures r.Success? ==> r.value == Track(table, host)
  {
    if exists k :: 0 <= k < |table| && |SplitOn(table[k].location, '/')| >= 2 then
      assert exists k :: 0 <= k < |table| && '/' in table[k].location by {
        var k :| 0 <= k < |table| && |SplitOn(table[k].location, '/')| >= 2;
        CountPositive(table[k].location, '/');
      }
      SelectionEmpty(table, host);
      if Filter(Filter(Project(table), HostIs(host)), HasLineage()) == [] then
        Failure(CountryColumnDropped)
      else
        Success(Track(table, host))
    else
      assert forall k :: 0 <= k < |table| ==> '/' !in table[k].location by {
        forall k | 0 <= k < |table| ensures '/' !in table[k].location {
          CountPositive(table[k].location, '/');
        }
      }
      Failure(CountryColumnMissing)
  }

  /** A table with a `/` in some location and some selected record runs to the pipeline's
      output. */
  lemma RunScriptSucceeds(table: seq<Record>, host: string, i: nat, j: nat)
    requires i < |table| && '/' in table[i].location
    requires j < |table| && Selected(table[j], host)
    ensures RunScript(table, host) == Success(Track(table, host))
  {
  }
}
