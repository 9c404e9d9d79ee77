/** One row of the GISAID metadata table, restricted to the seven columns both scripts read,
    and the country both scripts derive from its location. */
module Metadata {
  import opened Wrappers
  import opened Text

  /** The columns `Virus name`, `Accession ID`, `Collection date`, `Location`,
      `Pango lineage`, `AA Substitutions` and `Host`. A missing (NaN) cell is `None` in the
      two columns where the scripts treat it specially. */
  datatype Record = Record(
    virusName: string,
    accessionId: string,
    collectionDate: string,
    location: string,
    pangoLineage: Option<string>,
    aaSubstitutions: string,
    host: Option<string>)

  /** The country: the piece at index 1 of the location split on `/`, with surrounding
      whitespace stripped; absent when the location has no `/`. */
  function Country(location: string): (c: Option<string>)
    ensures c.Some? <==> Count(location, '/') >= 1
    ensures c.Some? ==> '/' !in c.value
  {
    var parts := SplitOn(location, '/');
    if |parts| >= 2 then Some(Strip(parts[1])) else None
  }

  /** For a location of the form `a/b/...` the country is `b` stripped of whitespace. */
  lemma CountryOfParts(parts: seq<string>)
    requires |parts| >= 2
    requires forall i :: 0 <= i < |parts| ==> '/' !in parts[i]
    ensures Country(Join(parts, '/')) == Some(Strip(parts[1]))
  {
    SplitOnJoin(parts, '/');
  }

  /** A three-level location: `North America / USA / California` gives the country `USA`. */
  lemma CountryExample()
    ensures Country("North America / USA / California") == Some("USA")
  {
    var parts := ["North America ", " USA ", " California"];
    assert Join(parts[2..], '/') == " California";
    assert Join(parts[1..], '/') == " USA " + "/" + " California" by {
      assert parts[1..][1..] == parts[2..];
    }
    assert "North America / USA / California" == Join(parts, '/');
    assert '/' !in parts[0] && '/' !in parts[1] && '/' !in parts[2];
    CountryOfParts(parts);
    StripExample();
  }
}
