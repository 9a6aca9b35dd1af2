/** The record-mapping step of the two loaders of extract.py.

    The object loader turns the rows of a near-Earth-object table, each a map from
    column header to text, into near-Earth-object records; the approach loader turns
    the arrays listed under the key "data" of a close-approach document into
    close-approach records. Both map their input in order and fail as a whole, with
    the error of the first lookup that goes wrong, when a column, the "data" key or
    an array position is missing. */
module Extract {
  import opened Results

  /** One parsed table row: column header to the text in that column. */
  type Row = map<string, string>

  /** The parsed close-approach document: top-level key to its list of arrays. */
  type Document = map<string, seq<seq<string>>>

  /** The construction arguments of a near-Earth object, as the loader passes them. */
  datatype NearEarthObject = NearEarthObject(designation: string, name: string, diameter: string, hazardous: bool)

  /** The construction arguments of a close approach, as the loader passes them. */
  datatype CloseApproach = CloseApproach(designation: string, time: string, distance: string, velocity: string)

  /** Why a load stopped. */
  datatype LoadError =
    | KeyError(key: string)   // a column of a row, or the "data" key of the document, is absent
    | IndexError(index: nat)  // an approach array has no element at the position read

  /** The columns a near-Earth-object row is read at, in the order they are looked up. */
  const NeoColumns: seq<string> := ["pdes", "name", "diameter", "pha"]

  /** The positions a close-approach array is read at, in the order they are looked up. */
  const ApproachIndices: seq<nat> := [0, 3, 4, 7]

  /** The top-level key of the document that holds the approach arrays. */
  const DataKey: string := "data"

  /** The text in the `pha` column that marks an object as potentially hazardous. */
  const HazardousMark: string := "Y"

  // ---------------------------------------------------------------------------
  // Object loader: one row to one near-Earth object

  /** The row has every column the object loader reads. */
  predicate HasNeoColumns(row: Row) {
    "pdes" in row && "name" in row && "diameter" in row && "pha" in row
  }

  /** Builds the near-Earth object of one row. The designation, name and diameter
      are the row's `pdes`, `name` and `diameter` texts; the object is hazardous when
      `pha` holds "Y". The first of the four columns, in lookup order, that the row
      lacks is the error. */
  function MapRow(row: Row): (r: Result<NearEarthObject, LoadError>)
    ensures r.Ok? <==> HasNeoColumns(row)
    ensures r.Err? ==>
      exists k :: 0 <= k < |NeoColumns| && r.error == KeyError(NeoColumns[k]) &&
        NeoColumns[k] !in row && forall j :: 0 <= j < k ==> NeoColumns[j] in row
  {
    assert NeoColumns[0] == "pdes" && NeoColumns[1] == "name";
    assert NeoColumns[2] == "diameter" && NeoColumns[3] == "pha";
    if "pdes" !in row then Err(KeyError("pdes"))
    else if "name" !in row then Err(KeyError("name"))
    else if "diameter" !in row then Err(KeyError("diameter"))
    else if "pha" !in row then Err(KeyError("pha"))
    else Ok(NearEarthObject(row["pdes"], row["name"], row["diameter"], row["pha"] == HazardousMark))
  }

  /** Reference relation: `n` is the object of `row` when the row has the four
      columns, the three text fields are copied verbatim and the hazard flag is set
      for "Y" and for nothing else. */
  predicate RowYields(row: Row, n: NearEarthObject) {
    HasNeoColumns(row) &&
    n.designation == row["pdes"] && n.name == row["name"] && n.diameter == row["diameter"] &&
    (n.hazardous <==> row["pha"] == HazardousMark)
  }

  lemma MapRowMatchesReference(row: Row, n: NearEarthObject)
    ensures MapRow(row) == Ok(n) <==> RowYields(row, n)
  {
  }

  /** Any `pha` text other than exactly "Y" ("N", the empty text, "y", ...) gives a
      harmless object; "Y" gives a hazardous one. */
  lemma HazardousIffY(row: Row, pha: string)
    requires HasNeoColumns(row)
    ensures MapRow(row["pha" := pha]).Ok?
    ensures MapRow(row["pha" := pha]).value.hazardous <==> pha == "Y"
  {
  }

  /** Rows that agree on the presence and the text of the four columns read. */
  predicate SameNeoColumns(row: Row, other: Row) {
    forall k :: 0 <= k < |NeoColumns| ==>
      (NeoColumns[k] in row <==> NeoColumns[k] in other) &&
      (NeoColumns[k] in row ==> row[NeoColumns[k]] == other[NeoColumns[k]])
  }

  /** Columns other than `pdes`, `name`, `diameter` and `pha` do not affect the
      outcome for a row, whether they are present or not. */
  lemma MapRowReadsOnlyNeoColumns(row: Row, other: Row)
    requires SameNeoColumns(row, other)
    ensures MapRow(row) == MapRow(other)
  {
    assert forall k :: 0 <= k < |NeoColumns| ==> (NeoColumns[k] in row <==> NeoColumns[k] in other);
    assert "pdes" in row <==> "pdes" in other by { assert NeoColumns[0] == "pdes"; }
    assert "name" in row <==> "name" in other by { assert NeoColumns[1] == "name"; }
    assert "diameter" in row <==> "diameter" in other by { assert NeoColumns[2] == "diameter"; }
    assert "pha" in row <==> "pha" in other by { assert NeoColumns[3] == "pha"; }
    assert "pdes" in row ==> row["pdes"] == other["pdes"] by { assert NeoColumns[0] == "pdes"; }
    assert "name" in row ==> row["name"] == other["name"] by { assert NeoColumns[1] == "name"; }
    assert "diameter" in row ==> row["diameter"] == other["diameter"] by { assert NeoColumns[2] == "diameter"; }
    assert "pha" in row ==> row["pha"] == other["pha"] by { assert NeoColumns[3] == "pha"; }
  }

  /** Setting a column other than the four read leaves the outcome unchanged. */
  lemma MapRowIgnoresOtherColumn(row: Row, column: string, text: string)
    requires column !in NeoColumns
    ensures MapRow(row[column := text]) == MapRow(row)
  {
    MapRowReadsOnlyNeoColumns(row[column := text], row);
  }

  /** A row holding exactly the fields of an object: the inverse of MapRow. */
  function RowOf(n: NearEarthObject): Row {
    map["pdes" := n.designation, "name" := n.name, "diameter" := n.diameter,
        "pha" := if n.hazardous then HazardousMark else "N"]
  }

  lemma MapRowRowOf(n: NearEarthObject)
    ensures MapRow(RowOf(n)) == Ok(n)
  {
  }

  // ---------------------------------------------------------------------------
  // Object loader: all rows

  /** What load_neos returns for the parsed rows. */
  function NeoRecords(rows: seq<Row>): (r: Result<seq<NearEarthObject>, LoadError>)
    ensures r.Ok? ==> |r.value| == |rows|
  {
    MapAll(rows, MapRow)
  }

  /** The row loop of load_neos: one object per row, appended in row order; the
      first row that lacks a column aborts the call. */
  method LoadNeos(rows: seq<Row>) returns (r: Result<seq<NearEarthObject>, LoadError>)
    ensures r == NeoRecords(rows)
  {
    var result: seq<NearEarthObject> := [];
    var i := 0;
    while i < |rows|
      invariant 0 <= i <= |rows|
      invariant MapAll(rows[..i], MapRow) == Ok(result)
    {
      assert rows[..i + 1][..i] == rows[..i];
      var neo := MapRow(rows[i]);
      if neo.Err? {
        MapAllPrefixError(rows, i + 1, MapRow);
        return Err(neo.error);
      }
      result := result + [neo.value];
      i := i + 1;
    }
    assert rows[..i] == rows;
    r := Ok(result);
  }

  /** The load succeeds exactly when every row has the four columns. */
  lemma NeoRecordsSucceedIff(rows: seq<Row>)
    ensures NeoRecords(rows).Ok? <==> forall i :: 0 <= i < |rows| ==> HasNeoColumns(rows[i])
  {
    MapAllSucceedsIff(rows, MapRow);
  }

  /** `neos` is the result of the load exactly when it holds one object per row, in
      row order, each built from its row as RowYields says. */
  lemma NeoRecordsOnePerRow(rows: seq<Row>, neos: seq<NearEarthObject>)
    ensures NeoRecords(rows) == Ok(neos) <==>
      |neos| == |rows| && forall i :: 0 <= i < |rows| ==> RowYields(rows[i], neos[i])
  {
    MapAllOkIff(rows, MapRow, neos);
    forall i | 0 <= i < |rows| && i < |neos| {
      MapRowMatchesReference(rows[i], neos[i]);
    }
  }

  /** A failed load reports the first missing column of the first incomplete row;
      every row before that one is complete. */
  lemma NeoRecordsFirstError(rows: seq<Row>)
    ensures NeoRecords(rows).Err? ==>
      exists k :: 0 <= k < |rows| && !HasNeoColumns(rows[k]) &&
        MapRow(rows[k]) == Err(NeoRecords(rows).error) &&
        forall j :: 0 <= j < k ==> HasNeoColumns(rows[j])
  {
    MapAllFirstError(rows, MapRow);
  }

  /** Loads of row-by-row equivalent tables agree: the values of unread columns
      never affect the result. */
  lemma NeoRecordsReadOnlyNeoColumns(rows: seq<Row>, others: seq<Row>)
    requires |rows| == |others|
    requires forall i :: 0 <= i < |rows| ==> SameNeoColumns(rows[i], others[i])
    ensures NeoRecords(rows) == NeoRecords(others)
  {
    forall i | 0 <= i < |rows| {
      MapRowReadsOnlyNeoColumns(rows[i], others[i]);
    }
    MapAllAgree(rows, MapRow, others, MapRow);
  }

  /** Loading the rows of a list of objects gives back that list. */
  lemma NeoRecordsRoundTrip(neos: seq<NearEarthObject>)
    ensures NeoRecords(seq(|neos|, i requires 0 <= i < |neos| => RowOf(neos[i]))) == Ok(neos)
  {
    var rows := seq(|neos|, i requires 0 <= i < |neos| => RowOf(neos[i]));
    forall i | 0 <= i < |rows| {
      MapRowRowOf(neos[i]);
    }
    MapAllOkIff(rows, MapRow, neos);
  }

  /** The table row 433 / Eros / 16.84 / N gives a harmless object named Eros. */
  lemma ErosRow()
    ensures MapRow(map["pdes" := "433", "name" := "Eros", "diameter" := "16.84", "pha" := "N"])
      == Ok(NearEarthObject("433", "Eros", "16.84", false))
  {
  }

  // ---------------------------------------------------------------------------
  // Approach loader: one array to one close approach

  /** Builds the close approach of one array from its elements 0 (designation),
      3 (time), 4 (distance) and 7 (velocity). The first of those positions, in
      lookup order, that the array is too short for is the error. */
  function MapArray(a: seq<string>): (r: Result<CloseApproach, LoadError>)
    ensures r.Ok? <==> |a| >= 8
    ensures r.Err? ==>
      exists k :: 0 <= k < |ApproachIndices| && r.error == IndexError(ApproachIndices[k]) &&
        |a| <= ApproachIndices[k] && forall j :: 0 <= j < k ==> ApproachIndices[j] < |a|
  {
    assert ApproachIndices[0] == 0 && ApproachIndices[1] == 3;
    assert ApproachIndices[2] == 4 && ApproachIndices[3] == 7;
    if |a| <= 0 then Err(IndexError(0))
    else if |a| <= 3 then Err(IndexError(3))
    else if |a| <= 4 then Err(IndexError(4))
    else if |a| <= 7 then Err(IndexError(7))
    else Ok(CloseApproach(a[0], a[3], a[4], a[7]))
  }

  /** Reference relation: `c` is the approach of `a` when `a` has at least eight
      elements and the four fields are its elements 0, 3, 4 and 7 verbatim. */
  predicate ArrayYields(a: seq<string>, c: CloseApproach) {
    |a| >= 8 && c.designation == a[0] && c.time == a[3] && c.distance == a[4] && c.velocity == a[7]
  }

  lemma MapArrayMatchesReference(a: seq<string>, c: CloseApproach)
    ensures MapArray(a) == Ok(c) <==> ArrayYields(a, c)
  {
  }

  /** Arrays that agree on which of the positions 0, 3, 4 and 7 they have and on
      the elements there. */
  predicate SameApproachFields(a: seq<string>, b: seq<string>) {
    forall k :: 0 <= k < |ApproachIndices| ==>
      (ApproachIndices[k] < |a| <==> ApproachIndices[k] < |b|) &&
      (ApproachIndices[k] < |a| ==> a[ApproachIndices[k]] == b[ApproachIndices[k]])
  }

  /** Only positions 0, 3, 4 and 7 decide the outcome for an array. */
  lemma MapArrayReadsOnlyApproachFields(a: seq<string>, b: seq<string>)
    requires SameApproachFields(a, b)
    ensures MapArray(a) == MapArray(b)
  {
    assert ApproachIndices[0] == 0 && ApproachIndices[1] == 3;
    assert ApproachIndices[2] == 4 && ApproachIndices[3] == 7;
    assert 0 < |a| <==> 0 < |b|;
    assert 3 < |a| <==> 3 < |b|;
    assert 4 < |a| <==> 4 < |b|;
    assert 7 < |a| <==> 7 < |b|;
  }

  /** Changing the element at any other position, such as 1, 2, 5, 6 or 8 and
      beyond, leaves the outcome unchanged. */
  lemma MapArrayIgnoresOtherIndex(a: seq<string>, j: nat, text: string)
    requires j < |a| && j !in ApproachIndices
    ensures MapArray(a[j := text]) == MapArray(a)
  {
    MapArrayReadsOnlyApproachFields(a[j := text], a);
  }

  /** Swapping the elements at positions 1 and 2 leaves the outcome unchanged. */
  lemma MapArrayIgnoresSwap(a: seq<string>)
    requires |a| > 2
    ensures MapArray(a[1 := a[2]][2 := a[1]]) == MapArray(a)
  {
    MapArrayIgnoresOtherIndex(a, 1, a[2]);
    MapArrayIgnoresOtherIndex(a[1 := a[2]], 2, a[1]);
  }

  /** Elements after position 7 are never read. */
  lemma MapArrayIgnoresTail(a: seq<string>, tail: seq<string>)
    requires |a| >= 8
    ensures MapArray(a + tail) == MapArray(a)
  {
  }

  /** An array holding exactly the fields of an approach, with empty text at the
      positions that are not read: the inverse of MapArray. */
  function ArrayOf(c: CloseApproach): seq<string> {
    [c.designation, "", "", c.time, c.distance, "", "", c.velocity]
  }

  lemma MapArrayArrayOf(c: CloseApproach)
    ensures MapArray(ArrayOf(c)) == Ok(c)
  {
  }

  /** The array 2015 AB, "", "", 2020-Jan-01 00:00, 0.1659, "", "", 12.34 gives the
      approach of 2015 AB at that time, distance and velocity. */
  lemma ApproachArray()
    ensures MapArray(["2015 AB", "", "", "2020-Jan-01 00:00", "0.1659", "", "", "12.34", "extra"])
      == Ok(CloseApproach("2015 AB", "2020-Jan-01 00:00", "0.1659", "12.34"))
  {
  }

  // ---------------------------------------------------------------------------
  // Approach loader: the whole document

  /** What load_approaches returns for the parsed document. */
  function ApproachRecords(doc: Document): (r: Result<seq<CloseApproach>, LoadError>)
    ensures r.Ok? ==> DataKey in doc && |r.value| == |doc[DataKey]|
  {
    if DataKey in doc then MapAll(doc[DataKey], MapArray) else Err(KeyError(DataKey))
  }

  /** The array loop of load_approaches: one approach per array under "data",
      appended in order; a missing "data" key or the first short array aborts the
      call. */
  method LoadApproaches(doc: Document) returns (r: Result<seq<CloseApproach>, LoadError>)
    ensures r == ApproachRecords(doc)
  {
    if DataKey !in doc {
      return Err(KeyError(DataKey));
    }
    var arrays := doc[DataKey];
    var result: seq<CloseApproach> := [];
    var i := 0;
    while i < |arrays|
      invariant 0 <= i <= |arrays|
      invariant MapAll(arrays[..i], MapArray) == Ok(result)
    {
      assert arrays[..i + 1][..i] == arrays[..i];
      var approach := MapArray(arrays[i]);
      if approach.Err? {
        MapAllPrefixError(arrays, i + 1, MapArray);
        return Err(approach.error);
      }
      result := result + [approach.value];
      i := i + 1;
    }
    assert arrays[..i] == arrays;
    r := Ok(result);
  }

  /** Without a "data" key the load fails with that key, whatever else the
      document holds. */
  lemma ApproachRecordsNeedData(doc: Document)
    requires DataKey !in doc
    ensures ApproachRecords(doc) == Err(KeyError("data"))
  {
  }

  /** The load succeeds exactly when "data" is present and every array under it
      has at least eight elements. */
  lemma ApproachRecordsSucceedIff(doc: Document)
    ensures ApproachRecords(doc).Ok? <==>
      DataKey in doc && forall i :: 0 <= i < |doc[DataKey]| ==> |doc[DataKey][i]| >= 8
  {
    if DataKey in doc {
      MapAllSucceedsIff(doc[DataKey], MapArray);
    }
  }

  /** `approaches` is the result of the load exactly when "data" is present and
      `approaches` holds one approach per array, in order, each built from its
      array as ArrayYields says. */
  lemma ApproachRecordsOnePerArray(doc: Document, approaches: seq<CloseApproach>)
    ensures ApproachRecords(doc) == Ok(approaches) <==>
      DataKey in doc && |approaches| == |doc[DataKey]| &&
      forall i :: 0 <= i < |approaches| ==> ArrayYields(doc[DataKey][i], approaches[i])
  {
    if DataKey in doc {
      var arrays := doc[DataKey];
      MapAllOkIff(arrays, MapArray, approaches);
      forall i | 0 <= i < |arrays| && i < |approaches| {
        MapArrayMatchesReference(arrays[i], approaches[i]);
      }
    }
  }

  /** A load of a document with "data" that fails reports the first position the
      first short array lacks; every array before it is long enough. */
  lemma ApproachRecordsFirstError(doc: Document)
    requires DataKey in doc
    ensures ApproachRecords(doc).Err? ==>
      exists k :: 0 <= k < |doc[DataKey]| && |doc[DataKey][k]| < 8 &&
        MapArray(doc[DataKey][k]) == Err(ApproachRecords(doc).error) &&
        forall j :: 0 <= j < k ==> |doc[DataKey][j]| >= 8
  {
    MapAllFirstError(doc[DataKey], MapArray);
  }

  /** Documents whose "data" lists agree array by array on positions 0, 3, 4 and 7
      load alike; the other positions and the other top-level keys are never read. */
  lemma ApproachRecordsReadOnlyApproachFields(doc: Document, other: Document)
    requires DataKey in doc <==> DataKey in other
    requires DataKey in doc ==>
      |doc[DataKey]| == |other[DataKey]| &&
      forall i :: 0 <= i < |doc[DataKey]| ==> SameApproachFields(doc[DataKey][i], other[DataKey][i])
    ensures ApproachRecords(doc) == ApproachRecords(other)
  {
    if DataKey in doc {
      forall i | 0 <= i < |doc[DataKey]| {
        MapArrayReadsOnlyApproachFields(doc[DataKey][i], other[DataKey][i]);
      }
      MapAllAgree(doc[DataKey], MapArray, other[DataKey], MapArray);
    }
  }

  /** Loading a document whose "data" lists the arrays of some approaches gives
      back those approaches. */
  lemma ApproachRecordsRoundTrip(approaches: seq<CloseApproach>)
    ensures ApproachRecords(map[DataKey := seq(|approaches|, i requires 0 <= i < |approaches| => ArrayOf(approaches[i]))])
      == Ok(approaches)
  {
    var arrays := seq(|approaches|, i requires 0 <= i < |approaches| => ArrayOf(approaches[i]));
    forall i | 0 <= i < |arrays| {
      MapArrayArrayOf(approaches[i]);
    }
    MapAllOkIff(arrays, MapArray, approaches);
  }
}
