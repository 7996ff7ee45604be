/** The coordinate-list converter (coor2gama.py): every line of a point list
    "id x y z ..." (whitespace or comma separated) with more than four fields
    becomes a point element under points-observations, in line order. */
module CoorToGama {
  import opened Common
  import opened Builtins
  import opened GamaXml

  /** The fields of one line: split on commas, keeping empty fields, when the
      line holds a comma anywhere; otherwise split on whitespace runs. */
  function LineFields(line: string): (fields: seq<string>)
    ensures ',' in line ==> |fields| == Count(line, ',') + 1 && Join(fields, ',') == line
    ensures ',' in line ==> forall i :: 0 <= i < |fields| ==> ',' !in fields[i]
    ensures ',' !in line ==> forall i :: 0 <= i < |fields| ==> Word(fields[i])
  {
    if Find(line, ',').Some? then
      var fields := Split(line, ',');
      JoinSplit(line, ',');
      fields
    else
      var fields := SplitWs(line);
      SplitWsWords(line);
      fields
  }

  /** Without a comma, a line is its fields with whitespace gaps around them: the
      gaps between two fields are non-empty, and the first and last may hold any
      whitespace, the line's own newline included. */
  lemma LineFieldsSpacedOut(line: string)
    requires ',' !in line
    ensures SpacedOut(Gaps(line), LineFields(line)) && Interleave(Gaps(line), LineFields(line)) == line
  {
    SplitWsGaps(line);
  }

  /** Conversely, without a comma the fields are exactly the words a line is made
      of, whatever whitespace (tabs, runs of blanks, a newline) separates them. */
  lemma LineFieldsOfWords(line: string, gaps: seq<string>, words: seq<string>)
    requires ',' !in line && SpacedOut(gaps, words) && Interleave(gaps, words) == line
    ensures LineFields(line) == words
  {
    SplitWsOfSpacedOut(gaps, words);
  }

  /** A comma-free line of five or more words, however they are spaced, gives the
      point its first four words describe. */
  lemma SpacedLineGivesPoint(gaps: seq<string>, words: seq<string>)
    requires SpacedOut(gaps, words) && |words| > 4 && ',' !in Interleave(gaps, words)
    ensures LinePoints(Interleave(gaps, words)) ==
      [[Attr("id", words[0]), Attr("x", words[1]), Attr("y", words[2]), Attr("z", words[3]), Attr("adj", "XYZ")]]
  {
    LineFieldsOfWords(Interleave(gaps, words), gaps, words);
  }

  /** The point a line's fields describe: only a line with more than four fields
      gives one, and its id, x, y and z are fields 0-3 as they stand. */
  function PointOfFields(fields: seq<string>): (r: Option<Attrs>)
    ensures r.Some? <==> |fields| > 4
    ensures r.Some? ==> (
      && Names(r.value) == ["id", "x", "y", "z", "adj"]
      && Lookup(r.value, "id") == Some(fields[0])
      && Lookup(r.value, "x") == Some(fields[1])
      && Lookup(r.value, "y") == Some(fields[2])
      && Lookup(r.value, "z") == Some(fields[3])
      && Lookup(r.value, "adj") == Some("XYZ"))
  {
    if |fields| > 4 then
      var a := [Attr("id", fields[0]), Attr("x", fields[1]), Attr("y", fields[2]), Attr("z", fields[3]), Attr("adj", "XYZ")];
      LookupAt(a, 1); LookupAt(a, 2); LookupAt(a, 3); LookupAt(a, 4);
      Some(a)
    else None
  }

  /** What one line contributes: one point or nothing. */
  function LinePoints(line: string): (ps: seq<Attrs>)
    ensures |ps| <= 1
  {
    match PointOfFields(LineFields(line))
    case None => []
    case Some(a) => [a]
  }

  /** The outputs of emit for each line, concatenated in line order. */
  function Gather(lines: seq<string>, emit: string -> seq<Attrs>): seq<Attrs> {
    if lines == [] then [] else Gather(lines[..|lines| - 1], emit) + emit(lines[|lines| - 1])
  }

  /** The attribute lists of the points a whole input gives, in line order. */
  function CoordinatePoints(lines: seq<string>): seq<Attrs> {
    Gather(lines, LinePoints)
  }

  /** The lines of two inputs read one after the other give the outputs of the
      first followed by those of the second. */
  lemma {:induction false} GatherAppend(l1: seq<string>, l2: seq<string>, emit: string -> seq<Attrs>)
    ensures Gather(l1 + l2, emit) == Gather(l1, emit) + Gather(l2, emit)
    decreases |l2|
  {
    if l2 == [] {
      assert l1 + l2 == l1;
    } else {
      var init := l2[..|l2| - 1];
      GatherAppend(l1, init, emit);
      assert (l1 + l2)[..|l1 + l2| - 1] == l1 + init;
      assert (l1 + l2)[|l1 + l2| - 1] == l2[|l2| - 1];
    }
  }

  lemma CoordinatePointsAppend(l1: seq<string>, l2: seq<string>)
    ensures CoordinatePoints(l1 + l2) == CoordinatePoints(l1) + CoordinatePoints(l2)
  {
    GatherAppend(l1, l2, LinePoints);
  }

  lemma {:induction false} GatherAt(lines: seq<string>, i: nat, emit: string -> seq<Attrs>)
    requires i < |lines|
    ensures Gather(lines, emit) == Gather(lines[..i], emit) + emit(lines[i]) + Gather(lines[i + 1..], emit)
  {
    var pre, mid, post := lines[..i], [lines[i]], lines[i + 1..];
    calc {
      Gather(lines, emit);
      { assert lines == (pre + mid) + post; }
      Gather((pre + mid) + post, emit);
      { GatherAppend(pre + mid, post, emit); }
      Gather(pre + mid, emit) + Gather(post, emit);
      { GatherAppend(pre, mid, emit); }
      Gather(pre, emit) + Gather(mid, emit) + Gather(post, emit);
      { GatherOne(lines[i], emit); }
      Gather(pre, emit) + emit(lines[i]) + Gather(post, emit);
    }
  }

  lemma GatherOne(line: string, emit: string -> seq<Attrs>)
    ensures Gather([line], emit) == emit(line)
  {
    assert [line][..0] == [];
  }

  /** Line i contributes its point, if any, exactly between the points of the
      lines before it and those of the lines after it. */
  lemma {:induction false} PointsFollowLines(lines: seq<string>, i: nat)
    requires i < |lines|
    ensures CoordinatePoints(lines) ==
      CoordinatePoints(lines[..i]) + LinePoints(lines[i]) + CoordinatePoints(lines[i + 1..])
  {
    GatherAt(lines, i, LinePoints);
  }

  /** A bare "id x y z" line, four whitespace-separated words, gives no point. */
  lemma BareRecordEmitsNothing(id: string, x: string, y: string, z: string)
    requires Word(id) && Word(x) && Word(y) && Word(z)
    requires ',' !in id + x + y + z
    ensures LineFields(id + " " + x + " " + y + " " + z) == [id, x, y, z]
    ensures LinePoints(id + " " + x + " " + y + " " + z) == []
  {
    var line := id + " " + x + " " + y + " " + z;
    assert Join([id, x, y, z], ' ') == line by {
      assert [y, z][1..] == [z];
      assert Join([y, z], ' ') == y + " " + z;
      assert [x, y, z][1..] == [y, z];
      assert Join([x, y, z], ' ') == x + " " + (y + " " + z);
      assert [id, x, y, z][1..] == [x, y, z];
      assert Join([id, x, y, z], ' ') == id + " " + (x + " " + (y + " " + z));
    }
    assert ',' !in line by {
      assert forall c :: c in line ==> c in id || c in x || c in y || c in z || c == ' ';
    }
    SplitWsJoin([id, x, y, z]);
  }

  lemma CommaLineJoin()
    ensures Join(["p1", "10.5", "", "3", "\n"], ',') == "p1,10.5,,3,\n"
  {
    assert Join(["3", "\n"], ',') == "3,\n";
    assert Join(["", "3", "\n"], ',') == ",3,\n" by { assert ["", "3", "\n"][1..] == ["3", "\n"]; }
    assert Join(["10.5", "", "3", "\n"], ',') == "10.5,,3,\n" by { assert ["10.5", "", "3", "\n"][1..] == ["", "3", "\n"]; }
    assert ["p1", "10.5", "", "3", "\n"][1..] == ["10.5", "", "3", "\n"];
  }

  /** A comma-separated line keeps its empty fields and its id's letter case. */
  lemma CommaLineExample()
    ensures LineFields("p1,10.5,,3,\n") == ["p1", "10.5", "", "3", "\n"]
    ensures LinePoints("p1,10.5,,3,\n") ==
      [[Attr("id", "p1"), Attr("x", "10.5"), Attr("y", ""), Attr("z", "3"), Attr("adj", "XYZ")]]
  {
    CommaLineJoin();
    SplitJoin(["p1", "10.5", "", "3", "\n"], ',');
    assert Find("p1,10.5,,3,\n", ',').Some?;
  }

  /** The loop of getGamaXml: appends one point element per qualifying line to
      pointsObservation, in line order, and returns the new elements. */
  method ConvertCoordinates(lines: seq<string>, pointsObservation: Element) returns (added: seq<Element>)
    modifies pointsObservation
    ensures pointsObservation.children == old(pointsObservation.children) + added
    ensures |added| == |CoordinatePoints(lines)|
    ensures forall k :: 0 <= k < |added| ==>
      fresh(added[k]) && IsLeaf(added[k], "point", CoordinatePoints(lines)[k])
    ensures pointsObservation.tag == old(pointsObservation.tag)
    ensures pointsObservation.attrib == old(pointsObservation.attrib)
  {
    added := [];
    var i := 0;
    while i < |lines|
      invariant 0 <= i <= |lines|
      invariant pointsObservation.children == old(pointsObservation.children) + added
      invariant |added| == |CoordinatePoints(lines[..i])|
      invariant forall k :: 0 <= k < |added| ==>
        fresh(added[k]) && IsLeaf(added[k], "point", CoordinatePoints(lines[..i])[k])
      invariant pointsObservation.tag == old(pointsObservation.tag)
      invariant pointsObservation.attrib == old(pointsObservation.attrib)
    {
      var data := LineFields(lines[i]);
      if |data| > 4 {
        var point := SubElement(pointsObservation, "point",
          [Attr("id", data[0]), Attr("x", data[1]), Attr("y", data[2]), Attr("z", data[3]), Attr("adj", "XYZ")]);
        added := added + [point];
      }
      assert lines[..i + 1][..i] == lines[..i];
      assert CoordinatePoints(lines[..i + 1]) == CoordinatePoints(lines[..i]) + LinePoints(lines[i]);
      i := i + 1;
    }
    assert lines[..|lines|] == lines;
  }
}
