/** The MAPA2 converter (mapa2gama.py): a station line "1 <from> <ih>" opens an
    obs block, and each following five-token measurement line adds a direction,
    a slope distance and a zenith angle to the block opened last. */
module MapaToGama {
  import opened Common
  import opened Builtins
  import opened GamaXml

  /** The tokens with a trailing point-code token (one holding '*') dropped; only
      the last token is looked at. An empty token list has no last token: IndexError. */
  function StripPointCode(d: seq<string>): (r: Result<seq<string>>)
    ensures r.Err? <==> d == []
    ensures r.Err? ==> r.error == IndexError
    ensures r.Ok? ==> (
      && |d| - 1 <= |r.value| <= |d|
      && r.value == d[..|r.value|]
      && (|r.value| < |d| <==> '*' in d[|d| - 1]))
  {
    if d == [] then Err(IndexError)
    else if Find(d[|d| - 1], '*').Some? then Ok(d[..|d| - 1])
    else Ok(d)
  }

  /** data after the first two statements of the loop body: line.split() and the
      point-code strip. */
  function LineTokens(line: string): Result<seq<string>> {
    StripPointCode(SplitWs(line))
  }

  /** Python's == between a str and an int: never true. */
  predicate StrEqualsInt(s: string, n: int) {
    false
  }

  /** list.pop(i), for the branch where the source drops the distance-type token.
      That branch pops index 1 of six fields only; an index out of range is left as is. */
  function RemoveAt(s: seq<string>, i: int): (r: seq<string>)
    ensures 0 <= i < |s| ==> |r| == |s| - 1 && r[..i] == s[..i] && r[i..] == s[i + 1..]
    ensures !(0 <= i < |s|) ==> r == s
  {
    if 0 <= i < |s| then s[..i] + s[i + 1..] else s
  }

  /** A child element of an obs block: its tag and its attribute list. */
  datatype Leaf = Leaf(tag: string, attrs: Attrs)

  /** An obs block: the station, its instrument height, and its children in order. */
  datatype Block = Block(from: string, ih: string, leaves: seq<Leaf>)

  /** The blocks read so far, and the exception that stopped the reading, if any. */
  datatype Run = Run(blocks: seq<Block>, failure: Option<Error>)

  /** The three children a measurement line [to, sdist, to_dh, direction, zangle]
      adds, every one with the fixed stdev "10". */
  function OrientationLeaves(d: seq<string>, ih: string): (leaves: seq<Leaf>)
    requires |d| == 5
    ensures |leaves| == 3
    ensures leaves[0].tag == "direction" && Names(leaves[0].attrs) == ["to", "val", "stdev"]
    ensures Lookup(leaves[0].attrs, "to") == Some(d[0]) && Lookup(leaves[0].attrs, "val") == Some(d[3])
    ensures leaves[1].tag == "s-distance" && Names(leaves[1].attrs) == ["to", "from_dh", "to_dh", "val", "stdev"]
    ensures Lookup(leaves[1].attrs, "to") == Some(d[0]) && Lookup(leaves[1].attrs, "from_dh") == Some(ih)
    ensures Lookup(leaves[1].attrs, "to_dh") == Some(d[2]) && Lookup(leaves[1].attrs, "val") == Some(d[1])
    ensures leaves[2].tag == "z-angle" && Names(leaves[2].attrs) == ["to", "val", "stdev"]
    ensures Lookup(leaves[2].attrs, "to") == Some(d[0]) && Lookup(leaves[2].attrs, "val") == Some(d[4])
    ensures forall k :: 0 <= k < 3 ==> Lookup(leaves[k].attrs, "stdev") == Some("10")
  {
    var dir := [Attr("to", d[0]), Attr("val", d[3]), Attr("stdev", "10")];
    var sdist := [Attr("to", d[0]), Attr("from_dh", ih), Attr("to_dh", d[2]), Attr("val", d[1]), Attr("stdev", "10")];
    var zangle := [Attr("to", d[0]), Attr("val", d[4]), Attr("stdev", "10")];
    LookupAt(dir, 1); LookupAt(dir, 2);
    LookupAt(sdist, 1); LookupAt(sdist, 2); LookupAt(sdist, 3); LookupAt(sdist, 4);
    LookupAt(zangle, 1); LookupAt(zangle, 2);
    [Leaf("direction", dir), Leaf("s-distance", sdist), Leaf("z-angle", zangle)]
  }

  /** blocks with leaves added to its last block. */
  function AppendToLast(blocks: seq<Block>, leaves: seq<Leaf>): seq<Block>
    requires blocks != []
  {
    var b := blocks[|blocks| - 1];
    blocks[..|blocks| - 1] + [Block(b.from, b.ih, b.leaves + leaves)]
  }

  /** One pass of the loop body of getGamaXml, given whether the line starts
      with "1 " and the line's tokens after the point-code strip. */
  function StepOn(r: Run, station: bool, tokens: Result<seq<string>>): Run {
    if r.failure.Some? then r
    else match tokens
      case Err(e) => Run(r.blocks, Some(e))
      case Ok(data) => MeasurementRun(StationBlocks(r.blocks, station, data), data)
  }

  /** The station test of the loop body: a line starting with "1 " with three
      tokens opens a block for its station and instrument height. */
  function StationBlocks(blocks: seq<Block>, station: bool, data: seq<string>): seq<Block> {
    if station && |data| == 3 then blocks + [Block(data[1], data[2], [])] else blocks
  }

  /** The measurement test of the loop body, after the station test: five
      tokens (or six with a second token equal to 2) extend the last block,
      and fail when no block is open yet. */
  function MeasurementRun(blocks: seq<Block>, data: seq<string>): Run {
    if (|data| == 6 && StrEqualsInt(data[1], 2)) || |data| == 5 then
      var d := if |data| == 6 then RemoveAt(data, 1) else data;
      if blocks == [] then Run(blocks, Some(UnboundLocalError))
      else Run(AppendToLast(blocks, OrientationLeaves(d, blocks[|blocks| - 1].ih)), None)
    else Run(blocks, None)
  }

  /** One pass of the loop body of getGamaXml over a line. */
  function Step(r: Run, line: string): Run {
    StepOn(r, StartsWith(line, "1 "), LineTokens(line))
  }

  /** Lines read one after the other with a given loop body, from no blocks. */
  function RunWith(lines: seq<string>, step: (Run, string) -> Run): Run {
    if lines == [] then Run([], None) else step(RunWith(lines[..|lines| - 1], step), lines[|lines| - 1])
  }

  /** The whole input read line by line. */
  function RunLines(lines: seq<string>): Run {
    RunWith(lines, Step)
  }

  lemma RunLinesSnoc(lines: seq<string>, line: string)
    ensures RunLines(lines + [line]) == Step(RunLines(lines), line)
  {
    assert (lines + [line])[..|lines|] == lines;
  }

  // --- properties of a single line ---

  /** A blank line raises IndexError. */
  lemma BlankLineFails(r: Run, line: string)
    requires r.failure == None && SplitWs(line) == []
    ensures Step(r, line) == Run(r.blocks, Some(IndexError))
  {
  }

  /** A station line opens a new, empty block for data[1] with height data[2];
      a point code after it is dropped first. */
  lemma StationOpensBlock(r: Run, line: string)
    requires r.failure == None && StartsWith(line, "1 ")
    requires LineTokens(line).Ok? && |LineTokens(line).value| == 3
    ensures var data := LineTokens(line).value;
      Step(r, line) == Run(r.blocks + [Block(data[1], data[2], [])], None)
  {
  }

  /** A five-token line adds its three children to the block opened last, with
      that block's instrument height. */
  lemma MeasurementExtendsLastBlock(r: Run, line: string)
    requires r.failure == None && r.blocks != []
    requires LineTokens(line).Ok? && |LineTokens(line).value| == 5
    ensures var b := r.blocks[|r.blocks| - 1];
      Step(r, line) == Run(r.blocks[..|r.blocks| - 1] +
        [Block(b.from, b.ih, b.leaves + OrientationLeaves(LineTokens(line).value, b.ih))], None)
  {
  }

  /** A measurement line before any station line reads the unbound obs. */
  lemma MeasurementBeforeStationFails(line: string)
    requires LineTokens(line).Ok? && |LineTokens(line).value| == 5
    ensures Step(Run([], None), line) == Run([], Some(UnboundLocalError))
  {
  }

  /** The six-token branch compares a string with the integer 2, so it never
      fires: a six-token line, like any line that is neither a station nor a
      measurement, changes nothing. */
  lemma OtherLinesIgnored(r: Run, line: string)
    requires r.failure == None && LineTokens(line).Ok?
    requires var n := |LineTokens(line).value|; n != 5 && (n != 3 || !StartsWith(line, "1 "))
    ensures Step(r, line) == r
  {
  }

  /** A token with '*' is dropped only in last place: "1 S1 1.55 K*" is a station line. */
  lemma PointCodeDroppedBeforeClassifying(from: string, ih: string, code: string)
    requires Word(from) && Word(ih) && Word(code) && '*' in code
    ensures LineTokens("1 " + from + " " + ih + " " + code) == Ok(["1", from, ih])
  {
    var line := "1 " + from + " " + ih + " " + code;
    var t := ["1", from, ih, code];
    assert SplitWs(line) == t by {
      assert Join(t, ' ') == line by {
        assert [ih, code][1..] == [code];
        assert Join([ih, code], ' ') == ih + " " + code;
        assert [from, ih, code][1..] == [ih, code];
        assert Join([from, ih, code], ' ') == from + " " + (ih + " " + code);
        assert t[1..] == [from, ih, code];
        assert Join(t, ' ') == "1" + " " + (from + " " + (ih + " " + code));
      }
      assert Word("1") by { assert !IsSpace('1'); }
      SplitWsJoin(t);
    }
    assert StripPointCode(t) == Ok(["1", from, ih]) by {
      assert Find(code, '*').Some?;
      assert t[..3] == ["1", from, ih];
    }
  }

  // --- properties of the whole run ---

  lemma {:induction false} FailureSticksWith(l1: seq<string>, l2: seq<string>, step: (Run, string) -> Run)
    requires forall r: Run, line: string :: r.failure.Some? ==> step(r, line) == r
    requires RunWith(l1, step).failure.Some?
    ensures RunWith(l1 + l2, step) == RunWith(l1, step)
    decreases |l2|
  {
    if l2 == [] {
      assert l1 + l2 == l1;
    } else {
      FailureSticksWith(l1, l2[..|l2| - 1], step);
      assert (l1 + l2)[..|l1 + l2| - 1] == l1 + l2[..|l2| - 1];
    }
  }

  /** Once a line has raised, later lines change nothing. */
  lemma FailureSticks(l1: seq<string>, l2: seq<string>)
    requires RunLines(l1).failure.Some?
    ensures RunLines(l1 + l2) == RunLines(l1)
  {
    FailureSticksWith(l1, l2, Step);
  }

  /** A block, once opened, is never removed or reordered, and its children only
      grow at the end. */
  predicate Extends(before: seq<Block>, after: seq<Block>) {
    && |before| <= |after|
    && (forall k :: 0 <= k < |before| ==>
          after[k].from == before[k].from && after[k].ih == before[k].ih
          && before[k].leaves <= after[k].leaves)
    && (forall k :: 0 <= k < |before| - 1 ==> after[k] == before[k])
  }

  lemma StepExtends(r: Run, line: string)
    ensures Extends(r.blocks, Step(r, line).blocks)
  {
    if r.failure == None && LineTokens(line).Ok? {
      var data := LineTokens(line).value;
      var blocks := StationBlocks(r.blocks, StartsWith(line, "1 "), data);
      assert Extends(r.blocks, blocks);
      MeasurementExtends(blocks, data);
      ExtendsTransitive(r.blocks, blocks, MeasurementRun(blocks, data).blocks);
    }
  }

  lemma MeasurementExtends(blocks: seq<Block>, data: seq<string>)
    ensures Extends(blocks, MeasurementRun(blocks, data).blocks)
  {
    if |data| == 5 && blocks != [] {
      var b := blocks[|blocks| - 1];
      assert b.leaves <= b.leaves + OrientationLeaves(data, b.ih);
    }
  }

  lemma ExtendsTransitive(a: seq<Block>, b: seq<Block>, c: seq<Block>)
    requires Extends(a, b) && Extends(b, c)
    ensures Extends(a, c)
  {
    forall k | 0 <= k < |a|
      ensures a[k].leaves <= c[k].leaves
    {
      assert a[k].leaves <= b[k].leaves && b[k].leaves <= c[k].leaves;
    }
  }

  lemma {:induction false} RunWithExtends(l1: seq<string>, l2: seq<string>, step: (Run, string) -> Run)
    requires forall r: Run, line: string :: Extends(r.blocks, step(r, line).blocks)
    ensures Extends(RunWith(l1, step).blocks, RunWith(l1 + l2, step).blocks)
    decreases |l2|
  {
    if l2 == [] {
      assert l1 + l2 == l1;
    } else {
      var init := l2[..|l2| - 1];
      RunWithExtends(l1, init, step);
      assert (l1 + l2)[..|l1 + l2| - 1] == l1 + init;
      ExtendsTransitive(RunWith(l1, step).blocks, RunWith(l1 + init, step).blocks, RunWith(l1 + l2, step).blocks);
    }
  }

  /** Reading more lines only extends what was read before: blocks keep their
      order and their children their order. */
  lemma RunExtends(l1: seq<string>, l2: seq<string>)
    ensures Extends(RunLines(l1).blocks, RunLines(l1 + l2).blocks)
  {
    forall r: Run, line: string
      ensures Extends(r.blocks, Step(r, line).blocks)
    {
      StepExtends(r, line);
    }
    RunWithExtends(l1, l2, Step);
  }

  // --- the loop ---

  /** el is an obs element for b, holding b's children as leaf elements. */
  predicate BlockIs(el: Element, b: Block)
    reads el, el.children
  {
    && el.tag == "obs" && el.attrib == [Attr("from", b.from)]
    && |el.children| == |b.leaves|
    && forall k :: 0 <= k < |b.leaves| ==> IsLeaf(el.children[k], b.leaves[k].tag, b.leaves[k].attrs)
  }

  /** The children of the elements els. */
  ghost function Kids(els: seq<Element>): (r: set<Element>)
    reads set k | 0 <= k < |els| :: els[k]
    ensures forall k, c :: 0 <= k < |els| && c in els[k].children ==> c in r
  {
    set k, c | 0 <= k < |els| && c in els[k].children :: c
  }

  /** els are distinct elements, apart from po, none a child of another, and
      each mirrors the block at its position. */
  ghost predicate Mirrors(po: Element, els: seq<Element>, blocks: seq<Block>)
    reads set k | 0 <= k < |els| :: els[k]
    reads Kids(els)
  {
    && |els| == |blocks|
    && (forall k :: 0 <= k < |els| ==> BlockIs(els[k], blocks[k]))
    && (forall k :: 0 <= k < |els| ==> els[k] != po && po !in els[k].children)
    && (forall k, m :: 0 <= k < m < |els| ==> els[k] != els[m])
    && (forall k, m :: 0 <= k < |els| && 0 <= m < |els| ==> els[m] !in els[k].children)
  }

  /** The state the loop carries: els mirror blocks, and obs and ih are the
      last obs element and its instrument height, obs null before any. */
  ghost predicate Cursor(po: Element, els: seq<Element>, blocks: seq<Block>, obs: Element?, ih: string)
    reads set k | 0 <= k < |els| :: els[k]
    reads Kids(els)
  {
    && Mirrors(po, els, blocks)
    && (obs == null <==> els == [])
    && (obs != null ==> obs == els[|els| - 1] && ih == blocks[|blocks| - 1].ih)
  }

  /** A station line: a new obs element under po. */
  method OpenBlock(po: Element, from: string, ih: string, ghost els: seq<Element>, ghost blocks: seq<Block>)
    returns (obs: Element)
    requires Mirrors(po, els, blocks)
    modifies po
    ensures fresh(obs) && po.children == old(po.children) + [obs]
    ensures po.tag == old(po.tag) && po.attrib == old(po.attrib)
    ensures Mirrors(po, els + [obs], blocks + [Block(from, ih, [])])
  {
    obs := SubElement(po, "obs", [Attr("from", from)]);
  }

  /** A measurement line: its three children under the obs element opened last. */
  method ExtendLast(po: Element, obs: Element, data: seq<string>, ih: string,
                    ghost els: seq<Element>, ghost blocks: seq<Block>)
    requires Mirrors(po, els, blocks) && els != [] && obs == els[|els| - 1]
    requires |data| == 5 && ih == blocks[|blocks| - 1].ih
    modifies obs
    ensures Mirrors(po, els, AppendToLast(blocks, OrientationLeaves(data, ih)))
  {
    var last := |els| - 1;
    AddMeasurement(obs, data, ih, blocks[last]);
    var after := AppendToLast(blocks, OrientationLeaves(data, ih));
    assert forall k :: 0 <= k < last ==> after[k] == blocks[k];
  }

  /** The first two statements of the loop body: split the line on whitespace
      and drop a trailing point code; an empty line has no last token. */
  method LineData(line: string) returns (tokens: Result<seq<string>>)
    ensures tokens == LineTokens(line)
  {
    var data := SplitWs(line);
    if |data| == 0 {
      return Err(IndexError);
    }
    if Find(data[|data| - 1], '*').Some? {
      data := data[..|data| - 1];
    }
    return Ok(data);
  }

  /** The rest of the loop body, on the line's tokens: station tells whether the
      line starts with "1 "; obs and ih are the loop's variables and els, blocks
      the obs elements made so far and what they hold. */
  method ApplyLine(po: Element, station: bool, tokens: Result<seq<string>>, obs: Element?, ih: string,
                   ghost els: seq<Element>, ghost blocks: seq<Block>)
    returns (obs': Element?, ih': string, failure: Option<Error>,
             ghost newEls: seq<Element>, ghost blocks': seq<Block>)
    requires Mirrors(po, els, blocks)
    requires obs == null <==> els == []
    requires obs != null ==> obs == els[|els| - 1] && ih == blocks[|blocks| - 1].ih
    modifies po, obs
    ensures StepOn(Run(blocks, None), station, tokens) == Run(blocks', failure)
    ensures Mirrors(po, els + newEls, blocks')
    ensures obs' == null <==> els + newEls == []
    ensures obs' != null ==> obs' == (els + newEls)[|els + newEls| - 1] && ih' == blocks'[|blocks'| - 1].ih
    ensures forall k :: 0 <= k < |newEls| ==> fresh(newEls[k])
    ensures po.children == old(po.children) + newEls
    ensures po.tag == old(po.tag) && po.attrib == old(po.attrib)
  {
    if tokens.Err? {
      obs', ih', failure, newEls, blocks' := obs, ih, Some(tokens.error), [], blocks;
    } else {
      var data := tokens.value;
      obs', ih', newEls, blocks' := OpenIfStation(po, station, data, obs, ih, els, blocks);
      failure, blocks' := ExtendIfMeasurement(po, data, obs', ih', els + newEls, blocks');
    }
  }

  /** The station test on a line's tokens. */
  method OpenIfStation(po: Element, station: bool, data: seq<string>, obs: Element?, ih: string,
                       ghost els: seq<Element>, ghost blocks: seq<Block>)
    returns (obs': Element?, ih': string, ghost newEls: seq<Element>, ghost blocks': seq<Block>)
    requires Mirrors(po, els, blocks)
    requires obs == null <==> els == []
    requires obs != null ==> obs == els[|els| - 1] && ih == blocks[|blocks| - 1].ih
    modifies po
    ensures blocks' == StationBlocks(blocks, station, data)
    ensures Mirrors(po, els + newEls, blocks')
    ensures obs' == null <==> els + newEls == []
    ensures obs' != null ==> obs' == (els + newEls)[|els + newEls| - 1] && ih' == blocks'[|blocks'| - 1].ih
    ensures forall k :: 0 <= k < |newEls| ==> fresh(newEls[k])
    ensures po.children == old(po.children) + newEls
    ensures po.tag == old(po.tag) && po.attrib == old(po.attrib)
  {
    obs', ih', newEls, blocks' := obs, ih, [], blocks;
    if station && |data| == 3 {
      var el := OpenBlock(po, data[1], data[2], els, blocks);
      obs', ih' := el, data[2];
      newEls := [el];
      blocks' := blocks + [Block(data[1], data[2], [])];
    }
  }

  /** The measurement test on a line's tokens, with the obs element and
      instrument height of the last station line. */
  method ExtendIfMeasurement(po: Element, data: seq<string>, obs: Element?, ih: string,
                             ghost els: seq<Element>, ghost blocks: seq<Block>)
    returns (failure: Option<Error>, ghost blocks': seq<Block>)
    requires Mirrors(po, els, blocks)
    requires obs == null <==> els == []
    requires obs != null ==> obs == els[|els| - 1] && ih == blocks[|blocks| - 1].ih
    modifies obs
    ensures MeasurementRun(blocks, data) == Run(blocks', failure)
    ensures Mirrors(po, els, blocks')
    ensures |blocks'| == |blocks| && (blocks' != [] ==> blocks'[|blocks'| - 1].ih == blocks[|blocks| - 1].ih)
  {
    failure, blocks' := None, blocks;
    if (|data| == 6 && StrEqualsInt(data[1], 2)) || |data| == 5 {
      var d := data;
      if |data| == 6 {
        d := RemoveAt(data, 1);
      }
      if obs == null {
        failure := Some(UnboundLocalError);
      } else {
        ExtendLast(po, obs, d, ih, els, blocks);
        blocks' := AppendToLast(blocks, OrientationLeaves(d, ih));
      }
    }
  }

  /** A loop that stops at the end of the input or at the first failure has
      the outcome of the whole input. */
  lemma RunStops(lines: seq<string>, i: nat)
    requires i <= |lines| && (i == |lines| || RunLines(lines[..i]).failure.Some?)
    ensures RunLines(lines) == RunLines(lines[..i])
  {
    if i < |lines| {
      FailureSticks(lines[..i], lines[i..]);
      assert lines[..i] + lines[i..] == lines;
    } else {
      assert lines[..i] == lines;
    }
  }

  /** The state of the loop of getGamaXml after lines[..i]: the outcome so far,
      the obs elements els appended to po after its first children start, and
      the tag and attributes of po as they were. */
  ghost predicate Reading(po: Element, start: seq<Element>, tag: string, attrib: Attrs,
                          lines: seq<string>, i: nat, els: seq<Element>, blocks: seq<Block>,
                          failure: Option<Error>, obs: Element?, ih: string)
    reads po
    reads set k | 0 <= k < |els| :: els[k]
    reads Kids(els)
  {
    && i <= |lines|
    && RunLines(lines[..i]) == Run(blocks, failure)
    && Cursor(po, els, blocks, obs, ih)
    && po.children == start + els
    && po.tag == tag && po.attrib == attrib
  }

  /** The loop body of getGamaXml on line i, after lines[..i] raised nothing. */
  method ReadLine(po: Element, lines: seq<string>, i: nat, obs: Element?, ih: string,
                  ghost start: seq<Element>, ghost tag: string, ghost attrib: Attrs,
                  ghost els: seq<Element>, ghost blocks: seq<Block>)
    returns (obs': Element?, ih': string, failure: Option<Error>,
             ghost newEls: seq<Element>, ghost blocks': seq<Block>)
    requires i < |lines|
    requires Reading(po, start, tag, attrib, lines, i, els, blocks, None, obs, ih)
    modifies po, obs
    ensures Reading(po, start, tag, attrib, lines, i + 1, els + newEls, blocks', failure, obs', ih')
    ensures forall k :: 0 <= k < |newEls| ==> fresh(newEls[k])
  {
    var tokens := LineData(lines[i]);
    obs', ih', failure, newEls, blocks' := ApplyLine(po, StartsWith(lines[i], "1 "), tokens, obs, ih, els, blocks);
    assert lines[..i + 1] == lines[..i] + [lines[i]];
    RunLinesSnoc(lines[..i], lines[i]);
    AppendAssoc(start, els, newEls);
  }

  lemma AppendAssoc(a: seq<Element>, b: seq<Element>, c: seq<Element>)
    ensures (a + b) + c == a + (b + c)
  {
  }

  /** The loop of getGamaXml: appends one obs element per station line to
      pointsObservation and the children of each measurement line to the obs
      element made last, stopping at the first exception. */
  method ConvertMapa(lines: seq<string>, pointsObservation: Element)
    returns (failure: Option<Error>, ghost made: seq<Element>)
    modifies pointsObservation
    ensures failure == RunLines(lines).failure
    ensures pointsObservation.children == old(pointsObservation.children) + made
    ensures forall k :: 0 <= k < |made| ==> fresh(made[k])
    ensures Mirrors(pointsObservation, made, RunLines(lines).blocks)
    ensures pointsObservation.tag == old(pointsObservation.tag)
    ensures pointsObservation.attrib == old(pointsObservation.attrib)
  {
    ghost var blocks: seq<Block> := [];
    ghost var start, tag, attrib := pointsObservation.children, pointsObservation.tag, pointsObservation.attrib;
    made := [];
    failure := None;
    var obs: Element? := null;
    var ih: string := "";
    var i := 0;
    assert lines[..0] == [];
    while i < |lines| && failure == None
      invariant Reading(pointsObservation, start, tag, attrib, lines, i, made, blocks, failure, obs, ih)
      invariant forall k :: 0 <= k < |made| ==> fresh(made[k])
    {
      ghost var newEls: seq<Element>;
      obs, ih, failure, newEls, blocks := ReadLine(pointsObservation, lines, i, obs, ih, start, tag, attrib, made, blocks);
      made := made + newEls;
      i := i + 1;
    }
    RunStops(lines, i);
  }

  /** The three SubElement calls of a measurement line, on the current obs element. */
  method AddMeasurement(obs: Element, data: seq<string>, ih: string, ghost b: Block)
    requires |data| == 5 && BlockIs(obs, b) && b.ih == ih
    modifies obs
    ensures BlockIs(obs, Block(b.from, b.ih, b.leaves + OrientationLeaves(data, ih)))
    ensures |obs.children| == |old(obs.children)| + 3
    ensures obs.children[..|old(obs.children)|] == old(obs.children)
    ensures forall k :: |old(obs.children)| <= k < |obs.children| ==> fresh(obs.children[k])
  {
    var direction := SubElement(obs, "direction",
      [Attr("to", data[0]), Attr("val", data[3]), Attr("stdev", "10")]);
    var sDistance := SubElement(obs, "s-distance",
      [Attr("to", data[0]), Attr("from_dh", ih), Attr("to_dh", data[2]), Attr("val", data[1]), Attr("stdev", "10")]);
    var zAngle := SubElement(obs, "z-angle",
      [Attr("to", data[0]), Attr("val", data[4]), Attr("stdev", "10")]);
  }
}
