/** The adjustment-result report (gama2txt.py): the fixed, approximate and
    adjusted coordinates and the observations of a GNU Gama local adjustment
    result, read from child elements, with approximate and adjusted points
    paired by id and observations whose residual exceeds a tolerance picked
    out. Elements are the children found under each selected element; the
    XPath selection itself and the text output are not modelled. */
module GamaToTxt {
  import opened Common
  import opened Builtins

  /** A child element: its tag, possibly in Clark notation "{namespace}name",
      and its text, None for an element with no text. */
  datatype Child = Child(tag: string, text: Option<string>)

  /** XPath local-name() of a tag: the name after a leading "{namespace}". */
  function LocalName(tag: string): (name: string)
    ensures |name| <= |tag|
    ensures (tag == [] || tag[0] != '{') ==> name == tag
  {
    if tag != [] && tag[0] == '{' then
      match Find(tag, '}')
      case Some(j) => tag[j + 1..]
      case None => tag
    else tag
  }

  /** A namespaced tag has the local name written after its namespace. */
  lemma LocalNameOfQualified(ns: string, name: string)
    requires '}' !in ns
    ensures LocalName("{" + ns + "}" + name) == name
  {
    var tag := "{" + ns + "}" + name;
    assert tag[..|ns| + 1] == "{" + ns;
    assert tag[|ns| + 1] == '}';
    assert tag[|ns| + 2..] == name;
  }

  /** The number float() reads from an element's text, if any. */
  function Number(text: Option<string>): Option<real> {
    if text.None? then None else ParseFloat(text.value)
  }

  /** float(item.text): TypeError for an element with no text, ValueError for
      text that is not a number. */
  function ToFloat(text: Option<string>): (r: Result<real>)
    ensures r.Ok? <==> Number(text).Some?
    ensures r.Ok? ==> Number(text) == Some(r.value)
    ensures r.Err? ==> r.error == (if text.None? then TypeError else ValueError)
  {
    match text
    case None => Err(TypeError)
    case Some(s) =>
      match ParseFloat(s)
      case None => Err(ValueError)
      case Some(v) => Ok(v)
  }

  // ---------------------------------------------------------------------
  // Reading a record from its children

  /** Reading the children one after the other into a record, from init,
      stopping at the first exception. */
  function Fold<R>(items: seq<Child>, init: R, step: (R, Child) -> Result<R>): Result<R> {
    if items == [] then Ok(init)
    else match Fold(items[..|items| - 1], init, step)
      case Err(e) => Err(e)
      case Ok(r) => step(r, items[|items| - 1])
  }

  /** The position of the last child that hit picks. */
  function LastHit(items: seq<Child>, hit: Child -> bool): (k: Option<nat>)
    ensures k.Some? ==> k.value < |items| && hit(items[k.value])
    ensures k.Some? ==> forall j :: k.value < j < |items| ==> !hit(items[j])
    ensures k.None? ==> forall j :: 0 <= j < |items| ==> !hit(items[j])
  {
    if items == [] then None
    else if hit(items[|items| - 1]) then Some(|items| - 1)
    else LastHit(items[..|items| - 1], hit)
  }

  /** The position of the first child that hit picks. */
  function FirstHit(items: seq<Child>, hit: Child -> bool): (k: Option<nat>)
    ensures k.Some? ==> k.value < |items| && hit(items[k.value])
    ensures k.Some? ==> forall j :: 0 <= j < k.value ==> !hit(items[j])
    ensures k.None? ==> forall j :: 0 <= j < |items| ==> !hit(items[j])
  {
    if items == [] then None
    else match FirstHit(items[..|items| - 1], hit)
      case Some(k) => Some(k)
      case None => if hit(items[|items| - 1]) then Some(|items| - 1) else None
  }

  /** val of the last child that hit picks, or default when there is none. */
  function Last<T>(items: seq<Child>, hit: Child -> bool, val: Child -> T, default: T): T {
    match LastHit(items, hit)
    case None => default
    case Some(k) => val(items[k])
  }

  /** When each step that succeeds sets a slot to val of a child hit picks and
      leaves it alone otherwise, the slot ends with val of the last such child. */
  lemma {:induction false} FoldLastWins<R, T>(items: seq<Child>, init: R, step: (R, Child) -> Result<R>,
                                             get: R -> T, hit: Child -> bool, val: Child -> T)
    requires forall r: R, c: Child :: step(r, c).Ok? ==>
      get(step(r, c).value) == if hit(c) then val(c) else get(r)
    ensures Fold(items, init, step).Ok? ==>
      get(Fold(items, init, step).value) == Last(items, hit, val, get(init))
  {
    if items != [] {
      var pre := items[..|items| - 1];
      FoldLastWins(pre, init, step, get, hit, val);
    }
  }

  /** When a step fails exactly on the children bad picks, with the error err
      gives, reading fails exactly when some child is bad, with the first bad
      child's error. */
  lemma {:induction false} FoldFails<R>(items: seq<Child>, init: R, step: (R, Child) -> Result<R>,
                                       bad: Child -> bool, err: Child -> Error)
    requires forall r: R, c: Child :: step(r, c).Err? <==> bad(c)
    requires forall r: R, c: Child :: step(r, c).Err? ==> step(r, c).error == err(c)
    ensures Fold(items, init, step).Err? <==> FirstHit(items, bad).Some?
    ensures Fold(items, init, step).Err? ==>
      Fold(items, init, step).error == err(items[FirstHit(items, bad).value])
  {
    if items != [] {
      var pre := items[..|items| - 1];
      FoldFails(pre, init, step, bad, err);
    }
  }

  /** A reading stopped at the end or at an exception has the outcome of the
      whole reading. */
  lemma {:induction false} FoldStops<R>(items: seq<Child>, i: nat, init: R, step: (R, Child) -> Result<R>)
    requires i <= |items| && (i == |items| || Fold(items[..i], init, step).Err?)
    ensures Fold(items, init, step) == Fold(items[..i], init, step)
    decreases |items|
  {
    if i < |items| {
      var pre := items[..|items| - 1];
      assert pre[..i] == items[..i];
      if i < |pre| {
        FoldStops(pre, i, init, step);
      } else {
        assert pre == items[..i];
      }
    } else {
      assert items[..i] == items;
    }
  }

  lemma FoldSnoc<R>(items: seq<Child>, i: nat, init: R, step: (R, Child) -> Result<R>)
    requires i < |items|
    ensures Fold(items[..i + 1], init, step) ==
      match Fold(items[..i], init, step)
      case Err(e) => Err(e)
      case Ok(r) => step(r, items[i])
  {
    assert items[..i + 1][..i] == items[..i];
  }

  predicate IsCoordinateChild(c: Child) {
    var n := LocalName(c.tag);
    n == "x" || n == "X" || n == "y" || n == "Y" || n == "z" || n == "Z"
  }

  /** The exception float() raises on a child's text. */
  function FloatError(c: Child): Error {
    if c.text.None? then TypeError else ValueError
  }

  // ---------------------------------------------------------------------
  // parserPointEl

  /** The list parserPointEl returns: id, x, y, z, where None stands for a
      missing id and for the NaN a missing coordinate keeps. */
  datatype PointRec = PointRec(id: Option<string>, x: Option<real>, y: Option<real>, z: Option<real>)

  const NoPoint: PointRec := PointRec(None, None, None, None)

  predicate IsIdChild(c: Child) { LocalName(c.tag) == "id" }
  predicate IsXChild(c: Child) { LocalName(c.tag) == "x" || LocalName(c.tag) == "X" }
  predicate IsYChild(c: Child) { LocalName(c.tag) == "y" || LocalName(c.tag) == "Y" }
  predicate IsZChild(c: Child) { LocalName(c.tag) == "z" || LocalName(c.tag) == "Z" }

  /** A coordinate child whose text float() cannot read. */
  predicate BadCoordinate(c: Child) {
    IsCoordinateChild(c) && Number(c.text).None?
  }

  function Text(c: Child): Option<string> { c.text }
  function ChildNumber(c: Child): Option<real> { Number(c.text) }

  /** One pass of the loop of parserPointEl. */
  function PointItem(p: PointRec, c: Child): Result<PointRec> {
    var n := LocalName(c.tag);
    if n == "id" then Ok(p.(id := c.text))
    else if n == "x" || n == "X" then
      match ToFloat(c.text) case Err(e) => Err(e) case Ok(v) => Ok(p.(x := Some(v)))
    else if n == "y" || n == "Y" then
      match ToFloat(c.text) case Err(e) => Err(e) case Ok(v) => Ok(p.(y := Some(v)))
    else if n == "z" || n == "Z" then
      match ToFloat(c.text) case Err(e) => Err(e) case Ok(v) => Ok(p.(z := Some(v)))
    else Ok(p)
  }

  /** parserPointEl on an element's children. */
  function ParsePoint(items: seq<Child>): Result<PointRec> {
    Fold(items, NoPoint, PointItem)
  }

  /** Each slot holds the value of the last child with its local name ("id";
      "x" or "X"; "y" or "Y"; "z" or "Z"), or its default when there is none. */
  lemma PointSlots(items: seq<Child>)
    ensures ParsePoint(items).Ok? ==>
      && ParsePoint(items).value.id == Last(items, IsIdChild, Text, None)
      && ParsePoint(items).value.x == Last(items, IsXChild, ChildNumber, None)
      && ParsePoint(items).value.y == Last(items, IsYChild, ChildNumber, None)
      && ParsePoint(items).value.z == Last(items, IsZChild, ChildNumber, None)
  {
    forall r: PointRec, c: Child | PointItem(r, c).Ok?
      ensures PointItem(r, c).value.id == if IsIdChild(c) then Text(c) else r.id
      ensures PointItem(r, c).value.x == if IsXChild(c) then ChildNumber(c) else r.x
      ensures PointItem(r, c).value.y == if IsYChild(c) then ChildNumber(c) else r.y
      ensures PointItem(r, c).value.z == if IsZChild(c) then ChildNumber(c) else r.z
    {
      PointItemSets(r, c);
    }
    FoldLastWins(items, NoPoint, PointItem, (p: PointRec) => p.id, IsIdChild, Text);
    FoldLastWins(items, NoPoint, PointItem, (p: PointRec) => p.x, IsXChild, ChildNumber);
    FoldLastWins(items, NoPoint, PointItem, (p: PointRec) => p.y, IsYChild, ChildNumber);
    FoldLastWins(items, NoPoint, PointItem, (p: PointRec) => p.z, IsZChild, ChildNumber);
  }

  /** parserPointEl raises exactly when a coordinate child's text is not a
      number, and then the exception of the first such child. */
  lemma PointFails(items: seq<Child>)
    ensures ParsePoint(items).Err? <==> FirstHit(items, BadCoordinate).Some?
    ensures ParsePoint(items).Err? ==>
      ParsePoint(items).error == FloatError(items[FirstHit(items, BadCoordinate).value])
  {
    forall r: PointRec, c: Child
      ensures PointItem(r, c).Err? <==> BadCoordinate(c)
      ensures PointItem(r, c).Err? ==> PointItem(r, c).error == FloatError(c)
    {
      PointItemFails(r, c);
    }
    FoldFails(items, NoPoint, PointItem, BadCoordinate, FloatError);
  }

  lemma PointItemSets(p: PointRec, c: Child)
    requires PointItem(p, c).Ok?
    ensures PointItem(p, c).value.id == if IsIdChild(c) then Text(c) else p.id
    ensures PointItem(p, c).value.x == if IsXChild(c) then ChildNumber(c) else p.x
    ensures PointItem(p, c).value.y == if IsYChild(c) then ChildNumber(c) else p.y
    ensures PointItem(p, c).value.z == if IsZChild(c) then ChildNumber(c) else p.z
  {
    var t := ToFloat(c.text);
  }

  lemma PointItemFails(p: PointRec, c: Child)
    ensures PointItem(p, c).Err? <==> BadCoordinate(c)
    ensures PointItem(p, c).Err? ==> PointItem(p, c).error == FloatError(c)
  {
    var t := ToFloat(c.text);
  }

  /** An "ID" child is not the id: the record is left as it is. */
  lemma UpperCaseIdIgnored(p: PointRec, text: Option<string>)
    ensures PointItem(p, Child("ID", text)) == Ok(p)
  {
  }

  /** "X" and "x" children both set x. */
  lemma EitherCaseSetsX(p: PointRec, t: string, u: real)
    requires ParseFloat(t) == Some(u)
    ensures PointItem(p, Child("X", Some(t))) == Ok(p.(x := Some(u)))
    ensures PointItem(p, Child("x", Some(t))) == Ok(p.(x := Some(u)))
  {
  }

  /** parserPointEl: the loop over the children of a point element, filling
      the slots of a record preset to no id and no coordinates. */
  method ParsePointEl(items: seq<Child>) returns (r: Result<PointRec>)
    ensures r == ParsePoint(items)
  {
    var point := NoPoint;
    var failure: Option<Error> := None;
    var i := 0;
    while i < |items| && failure == None
      invariant 0 <= i <= |items|
      invariant Fold(items[..i], NoPoint, PointItem) ==
        if failure.Some? then Err(failure.value) else Ok(point)
    {
      var tag := LocalName(items[i].tag);
      if tag == "id" {
        point := point.(id := items[i].text);
      } else if tag == "x" || tag == "X" {
        var v := ToFloat(items[i].text);
        if v.Err? { failure := Some(v.error); } else { point := point.(x := Some(v.value)); }
      } else if tag == "y" || tag == "Y" {
        var v := ToFloat(items[i].text);
        if v.Err? { failure := Some(v.error); } else { point := point.(y := Some(v.value)); }
      } else if tag == "z" || tag == "Z" {
        var v := ToFloat(items[i].text);
        if v.Err? { failure := Some(v.error); } else { point := point.(z := Some(v.value)); }
      }
      FoldSnoc(items, i, NoPoint, PointItem);
      i := i + 1;
    }
    FoldStops(items, i, NoPoint, PointItem);
    r := if failure.Some? then Err(failure.value) else Ok(point);
  }

  // ---------------------------------------------------------------------
  // parserObsEl

  /** The list parserObsEl returns: from, to, the observed and the adjusted
      value, where None stands for a missing name and for a NaN default. */
  datatype ObsRec = ObsRec(from: Option<string>, to: Option<string>, observed: Option<real>, adjusted: Option<real>)

  const NoObs: ObsRec := ObsRec(None, None, None, None)

  predicate IsFromChild(c: Child) { LocalName(c.tag) == "from" }
  predicate IsToChild(c: Child) { LocalName(c.tag) == "to" }
  predicate IsObservedChild(c: Child) { LocalName(c.tag) == "obs" }
  predicate IsAdjustedChild(c: Child) { LocalName(c.tag) == "adj" }

  /** A value child whose text float() cannot read. */
  predicate BadValue(c: Child) {
    (IsObservedChild(c) || IsAdjustedChild(c)) && Number(c.text).None?
  }

  /** One pass of the loop of parserObsEl. */
  function ObsItem(o: ObsRec, c: Child): Result<ObsRec> {
    var n := LocalName(c.tag);
    if n == "from" then Ok(o.(from := c.text))
    else if n == "to" then Ok(o.(to := c.text))
    else if n == "obs" then
      match ToFloat(c.text) case Err(e) => Err(e) case Ok(v) => Ok(o.(observed := Some(v)))
    else if n == "adj" then
      match ToFloat(c.text) case Err(e) => Err(e) case Ok(v) => Ok(o.(adjusted := Some(v)))
    else Ok(o)
  }

  /** parserObsEl on an element's children. */
  function ParseObs(items: seq<Child>): Result<ObsRec> {
    Fold(items, NoObs, ObsItem)
  }

  /** Each slot holds the value of the last child named "from", "to", "obs"
      or "adj" respectively, or its default when there is none. */
  lemma ObsSlots(items: seq<Child>)
    ensures ParseObs(items).Ok? ==>
      && ParseObs(items).value.from == Last(items, IsFromChild, Text, None)
      && ParseObs(items).value.to == Last(items, IsToChild, Text, None)
      && ParseObs(items).value.observed == Last(items, IsObservedChild, ChildNumber, None)
      && ParseObs(items).value.adjusted == Last(items, IsAdjustedChild, ChildNumber, None)
  {
    forall r: ObsRec, c: Child | ObsItem(r, c).Ok?
      ensures ObsItem(r, c).value.from == if IsFromChild(c) then Text(c) else r.from
      ensures ObsItem(r, c).value.to == if IsToChild(c) then Text(c) else r.to
      ensures ObsItem(r, c).value.observed == if IsObservedChild(c) then ChildNumber(c) else r.observed
      ensures ObsItem(r, c).value.adjusted == if IsAdjustedChild(c) then ChildNumber(c) else r.adjusted
    {
      ObsItemSets(r, c);
    }
    FoldLastWins(items, NoObs, ObsItem, (o: ObsRec) => o.from, IsFromChild, Text);
    FoldLastWins(items, NoObs, ObsItem, (o: ObsRec) => o.to, IsToChild, Text);
    FoldLastWins(items, NoObs, ObsItem, (o: ObsRec) => o.observed, IsObservedChild, ChildNumber);
    FoldLastWins(items, NoObs, ObsItem, (o: ObsRec) => o.adjusted, IsAdjustedChild, ChildNumber);
  }

  /** parserObsEl raises exactly when an "obs" or "adj" child's text is not a
      number, and then the exception of the first such child. */
  lemma ObsFails(items: seq<Child>)
    ensures ParseObs(items).Err? <==> FirstHit(items, BadValue).Some?
    ensures ParseObs(items).Err? ==>
      ParseObs(items).error == FloatError(items[FirstHit(items, BadValue).value])
  {
    forall r: ObsRec, c: Child
      ensures ObsItem(r, c).Err? <==> BadValue(c)
      ensures ObsItem(r, c).Err? ==> ObsItem(r, c).error == FloatError(c)
    {
      ObsItemFails(r, c);
    }
    FoldFails(items, NoObs, ObsItem, BadValue, FloatError);
  }

  lemma ObsItemSets(o: ObsRec, c: Child)
    requires ObsItem(o, c).Ok?
    ensures ObsItem(o, c).value.from == if IsFromChild(c) then Text(c) else o.from
    ensures ObsItem(o, c).value.to == if IsToChild(c) then Text(c) else o.to
    ensures ObsItem(o, c).value.observed == if IsObservedChild(c) then ChildNumber(c) else o.observed
    ensures ObsItem(o, c).value.adjusted == if IsAdjustedChild(c) then ChildNumber(c) else o.adjusted
  {
    var t := ToFloat(c.text);
  }

  lemma ObsItemFails(o: ObsRec, c: Child)
    ensures ObsItem(o, c).Err? <==> BadValue(c)
    ensures ObsItem(o, c).Err? ==> ObsItem(o, c).error == FloatError(c)
  {
    var t := ToFloat(c.text);
  }

  /** parserObsEl: the loop over the children of an observation element. */
  method ParseObsEl(items: seq<Child>) returns (r: Result<ObsRec>)
    ensures r == ParseObs(items)
  {
    var obs := NoObs;
    var failure: Option<Error> := None;
    var i := 0;
    while i < |items| && failure == None
      invariant 0 <= i <= |items|
      invariant Fold(items[..i], NoObs, ObsItem) ==
        if failure.Some? then Err(failure.value) else Ok(obs)
    {
      var tag := LocalName(items[i].tag);
      if tag == "from" {
        obs := obs.(from := items[i].text);
      } else if tag == "to" {
        obs := obs.(to := items[i].text);
      } else if tag == "obs" {
        var v := ToFloat(items[i].text);
        if v.Err? { failure := Some(v.error); } else { obs := obs.(observed := Some(v.value)); }
      } else if tag == "adj" {
        var v := ToFloat(items[i].text);
        if v.Err? { failure := Some(v.error); } else { obs := obs.(adjusted := Some(v.value)); }
      }
      FoldSnoc(items, i, NoObs, ObsItem);
      i := i + 1;
    }
    FoldStops(items, i, NoObs, ObsItem);
    r := if failure.Some? then Err(failure.value) else Ok(obs);
  }

  // ---------------------------------------------------------------------
  // Lists of records

  /** The append loops of gamaXml2coor: parse every selected element in
      document order, stopping at the first exception. */
  function ParseAll<R>(els: seq<seq<Child>>, parse: seq<Child> -> Result<R>): Result<seq<R>> {
    if els == [] then Ok([])
    else match ParseAll(els[..|els| - 1], parse)
      case Err(e) => Err(e)
      case Ok(rs) =>
        match parse(els[|els| - 1])
        case Err(e) => Err(e)
        case Ok(x) => Ok(rs + [x])
  }

  /** The list holds one record per element, in document order, exactly when
      every element parses. */
  lemma {:induction false} ParseAllSpec<R>(els: seq<seq<Child>>, parse: seq<Child> -> Result<R>)
    ensures ParseAll(els, parse).Ok? <==> forall k :: 0 <= k < |els| ==> parse(els[k]).Ok?
    ensures ParseAll(els, parse).Ok? ==>
      && |ParseAll(els, parse).value| == |els|
      && forall k :: 0 <= k < |els| ==> parse(els[k]) == Ok(ParseAll(els, parse).value[k])
  {
    if els != [] {
      var pre := els[..|els| - 1];
      ParseAllSpec(pre, parse);
      assert forall k :: 0 <= k < |pre| ==> pre[k] == els[k];
    }
  }

  /** A loop stopped at the end or at an exception has the outcome of the
      whole list. */
  lemma {:induction false} ParseAllStops<R>(els: seq<seq<Child>>, i: nat, parse: seq<Child> -> Result<R>)
    requires i <= |els| && (i == |els| || ParseAll(els[..i], parse).Err?)
    ensures ParseAll(els, parse) == ParseAll(els[..i], parse)
    decreases |els|
  {
    if i < |els| {
      var pre := els[..|els| - 1];
      assert pre[..i] == els[..i];
      if i < |pre| {
        ParseAllStops(pre, i, parse);
      } else {
        assert pre == els[..i];
      }
    } else {
      assert els[..i] == els;
    }
  }

  lemma ParseAllSnoc<R>(els: seq<seq<Child>>, i: nat, parse: seq<Child> -> Result<R>)
    requires i < |els|
    ensures ParseAll(els[..i + 1], parse) ==
      match ParseAll(els[..i], parse)
      case Err(e) => Err(e)
      case Ok(rs) =>
        match parse(els[i])
        case Err(e) => Err(e)
        case Ok(x) => Ok(rs + [x])
  {
    assert els[..i + 1][..i] == els[..i];
  }

  /** corFixed, corAprox and corAdj: parserPointEl on each point element. */
  method ParsePointList(els: seq<seq<Child>>) returns (r: Result<seq<PointRec>>)
    ensures r == ParseAll(els, ParsePoint)
  {
    var points: seq<PointRec> := [];
    var failure: Option<Error> := None;
    var i := 0;
    while i < |els| && failure == None
      invariant 0 <= i <= |els|
      invariant ParseAll(els[..i], ParsePoint) == if failure.Some? then Err(failure.value) else Ok(points)
    {
      var p := ParsePointEl(els[i]);
      if p.Err? { failure := Some(p.error); } else { points := points + [p.value]; }
      ParseAllSnoc(els, i, ParsePoint);
      i := i + 1;
    }
    ParseAllStops(els, i, ParsePoint);
    r := if failure.Some? then Err(failure.value) else Ok(points);
  }

  /** obsDir, obsSlopeDist and obsZenitAngl: parserObsEl on each observation. */
  method ParseObsList(els: seq<seq<Child>>) returns (r: Result<seq<ObsRec>>)
    ensures r == ParseAll(els, ParseObs)
  {
    var records: seq<ObsRec> := [];
    var failure: Option<Error> := None;
    var i := 0;
    while i < |els| && failure == None
      invariant 0 <= i <= |els|
      invariant ParseAll(els[..i], ParseObs) == if failure.Some? then Err(failure.value) else Ok(records)
    {
      var o := ParseObsEl(els[i]);
      if o.Err? { failure := Some(o.error); } else { records := records + [o.value]; }
      ParseAllSnoc(els, i, ParseObs);
      i := i + 1;
    }
    ParseAllStops(els, i, ParseObs);
    r := if failure.Some? then Err(failure.value) else Ok(records);
  }

  // ---------------------------------------------------------------------
  // Pairing approximate with adjusted points

  /** a - b on values that may be NaN: NaN when either is. */
  function Sub(a: Option<real>, b: Option<real>): (d: Option<real>)
    ensures d.Some? <==> a.Some? && b.Some?
    ensures d.Some? ==> a.value == b.value + d.value
  {
    if a.Some? && b.Some? then Some(a.value - b.value) else None
  }

  /** One row of the coordinate table: the adjusted point, the approximate
      coordinates, and adjusted minus approximate per axis. */
  datatype PairRow = PairRow(adjusted: PointRec, approximate: PointRec,
                             dx: Option<real>, dy: Option<real>, dz: Option<real>)

  function RowOf(q: PointRec, p: PointRec): PairRow {
    PairRow(q, p, Sub(q.x, p.x), Sub(q.y, p.y), Sub(q.z, p.z))
  }

  /** The rows of one approximate point: one per adjusted point with an
      equal id, in document order. Two missing ids are equal. */
  function RowsFor(p: PointRec, adj: seq<PointRec>): seq<PairRow> {
    if adj == [] then []
    else
      var q := adj[|adj| - 1];
      RowsFor(p, adj[..|adj| - 1]) + (if q.id == p.id then [RowOf(q, p)] else [])
  }

  /** The rows of the coordinate table, approximate point by approximate point. */
  function Pairs(approx: seq<PointRec>, adj: seq<PointRec>): seq<PairRow> {
    if approx == [] then []
    else Pairs(approx[..|approx| - 1], adj) + RowsFor(approx[|approx| - 1], adj)
  }

  lemma {:induction false} RowsForSound(p: PointRec, adj: seq<PointRec>, row: PairRow)
    requires row in RowsFor(p, adj)
    ensures exists j :: 0 <= j < |adj| && adj[j].id == p.id && row == RowOf(adj[j], p)
  {
    var pre := adj[..|adj| - 1];
    if row in RowsFor(p, pre) {
      RowsForSound(p, pre, row);
      var j :| 0 <= j < |pre| && pre[j].id == p.id && row == RowOf(pre[j], p);
      assert adj[j] == pre[j];
    } else {
      assert adj[|adj| - 1].id == p.id && row == RowOf(adj[|adj| - 1], p);
    }
  }

  lemma {:induction false} RowsForComplete(p: PointRec, adj: seq<PointRec>, j: nat)
    requires j < |adj| && adj[j].id == p.id
    ensures RowOf(adj[j], p) in RowsFor(p, adj)
  {
    var pre := adj[..|adj| - 1];
    if j < |pre| {
      RowsForComplete(p, pre, j);
      assert pre[j] == adj[j];
    }
  }

  lemma {:induction false} PairsSound(approx: seq<PointRec>, adj: seq<PointRec>, row: PairRow)
    requires row in Pairs(approx, adj)
    ensures exists i, j :: 0 <= i < |approx| && 0 <= j < |adj| && adj[j].id == approx[i].id && row == RowOf(adj[j], approx[i])
  {
    var pre := approx[..|approx| - 1];
    var p := approx[|approx| - 1];
    if row in Pairs(pre, adj) {
      PairsSound(pre, adj, row);
      var i, j :| 0 <= i < |pre| && 0 <= j < |adj| && adj[j].id == pre[i].id && row == RowOf(adj[j], pre[i]);
      assert approx[i] == pre[i];
    } else {
      RowsForSound(p, adj, row);
      var j :| 0 <= j < |adj| && adj[j].id == p.id && row == RowOf(adj[j], p);
      assert approx[|approx| - 1] == p;
    }
  }

  lemma {:induction false} PairsComplete(approx: seq<PointRec>, adj: seq<PointRec>, i: nat, j: nat)
    requires i < |approx| && j < |adj| && adj[j].id == approx[i].id
    ensures RowOf(adj[j], approx[i]) in Pairs(approx, adj)
  {
    var pre := approx[..|approx| - 1];
    if i < |pre| {
      PairsComplete(pre, adj, i, j);
      assert pre[i] == approx[i];
    } else {
      RowsForComplete(approx[i], adj, j);
    }
  }

  /** A row is in the table exactly when it pairs some approximate point with
      some adjusted point of the same id. */
  lemma PairsMembership(approx: seq<PointRec>, adj: seq<PointRec>, row: PairRow)
    ensures row in Pairs(approx, adj) <==>
      exists i, j :: 0 <= i < |approx| && 0 <= j < |adj| && adj[j].id == approx[i].id && row == RowOf(adj[j], approx[i])
  {
    if row in Pairs(approx, adj) {
      PairsSound(approx, adj, row);
    }
    if exists i, j :: 0 <= i < |approx| && 0 <= j < |adj| && adj[j].id == approx[i].id && row == RowOf(adj[j], approx[i]) {
      var i, j :| 0 <= i < |approx| && 0 <= j < |adj| && adj[j].id == approx[i].id && row == RowOf(adj[j], approx[i]);
      PairsComplete(approx, adj, i, j);
    }
  }

  /** The rows of the earlier approximate points come first. */
  lemma {:induction false} PairsAppend(a1: seq<PointRec>, a2: seq<PointRec>, adj: seq<PointRec>)
    ensures Pairs(a1 + a2, adj) == Pairs(a1, adj) + Pairs(a2, adj)
    decreases |a2|
  {
    if a2 == [] {
      assert a1 + a2 == a1;
    } else {
      var init := a2[..|a2| - 1];
      PairsAppend(a1, init, adj);
      assert (a1 + a2)[..|a1 + a2| - 1] == a1 + init;
      assert (a1 + a2)[|a1 + a2| - 1] == a2[|a2| - 1];
    }
  }

  /** Two adjusted points with the id of an approximate point give two rows. */
  lemma DuplicateIdsGiveSeveralRows(p: PointRec, q1: PointRec, q2: PointRec)
    requires q1.id == p.id && q2.id == p.id
    ensures Pairs([p], [q1, q2]) == [RowOf(q1, p), RowOf(q2, p)]
  {
    assert [q1][..0] == [];
    assert RowsFor(p, [q1]) == [RowOf(q1, p)];
    assert [q1, q2][..1] == [q1];
    assert RowsFor(p, [q1, q2]) == [RowOf(q1, p), RowOf(q2, p)];
    assert [p][..0] == [];
  }

  /** The nested loops of gamaXml2coor over the approximate and the adjusted
      points. */
  method PairPoints(approx: seq<PointRec>, adj: seq<PointRec>) returns (rows: seq<PairRow>)
    ensures rows == Pairs(approx, adj)
  {
    rows := [];
    var i := 0;
    while i < |approx|
      invariant 0 <= i <= |approx|
      invariant rows == Pairs(approx[..i], adj)
    {
      var j := 0;
      while j < |adj|
        invariant 0 <= j <= |adj|
        invariant rows == Pairs(approx[..i], adj) + RowsFor(approx[i], adj[..j])
      {
        if adj[j].id == approx[i].id {
          rows := rows + [RowOf(adj[j], approx[i])];
        }
        assert adj[..j + 1][..j] == adj[..j];
        j := j + 1;
      }
      assert adj[..j] == adj;
      assert approx[..i + 1][..i] == approx[..i];
      i := i + 1;
    }
    assert approx[..i] == approx;
  }

  // ---------------------------------------------------------------------
  // Residuals

  /** The tolerances of the direction, slope-distance and zenith-angle lists. */
  const DirMax: real := 0.0100
  const DistMax: real := 0.02
  const ZAngMax: real := 0.0100

  function Abs(x: real): (a: real)
    ensures a >= 0.0 && (a == x || a == -x)
  {
    if x < 0.0 then -x else x
  }

  /** abs(adj - obs) > tol, false when either value is missing, as every
      comparison with NaN is. */
  predicate Exceeds(o: ObsRec, tol: real) {
    o.observed.Some? && o.adjusted.Some? && Abs(o.adjusted.value - o.observed.value) > tol
  }

  /** A reported observation: its record and adjusted minus observed. */
  datatype Residual = Residual(obs: ObsRec, diff: real)

  function ResidualOf(o: ObsRec): Residual
    requires o.observed.Some? && o.adjusted.Some?
  {
    Residual(o, o.adjusted.value - o.observed.value)
  }

  /** The reported observations, in document order. */
  function Residuals(obs: seq<ObsRec>, tol: real): seq<Residual> {
    if obs == [] then []
    else
      var o := obs[|obs| - 1];
      Residuals(obs[..|obs| - 1], tol) + (if Exceeds(o, tol) then [ResidualOf(o)] else [])
  }

  lemma {:induction false} ResidualsSound(obs: seq<ObsRec>, tol: real, r: Residual)
    requires r in Residuals(obs, tol)
    ensures exists k :: 0 <= k < |obs| && Exceeds(obs[k], tol) && r == ResidualOf(obs[k])
  {
    var pre := obs[..|obs| - 1];
    if r in Residuals(pre, tol) {
      ResidualsSound(pre, tol, r);
      var k :| 0 <= k < |pre| && Exceeds(pre[k], tol) && r == ResidualOf(pre[k]);
      assert obs[k] == pre[k];
    } else {
      assert Exceeds(obs[|obs| - 1], tol) && r == ResidualOf(obs[|obs| - 1]);
    }
  }

  lemma {:induction false} ResidualsComplete(obs: seq<ObsRec>, tol: real, k: nat)
    requires k < |obs| && Exceeds(obs[k], tol)
    ensures ResidualOf(obs[k]) in Residuals(obs, tol)
  {
    var pre := obs[..|obs| - 1];
    if k < |pre| {
      ResidualsComplete(pre, tol, k);
      assert pre[k] == obs[k];
    }
  }

  /** An observation is reported exactly when its residual exceeds the
      tolerance, and a reported row carries adjusted minus observed. */
  lemma ResidualsMembership(obs: seq<ObsRec>, tol: real, r: Residual)
    ensures r in Residuals(obs, tol) <==> exists k :: 0 <= k < |obs| && Exceeds(obs[k], tol) && r == ResidualOf(obs[k])
  {
    if r in Residuals(obs, tol) {
      ResidualsSound(obs, tol, r);
    }
    if exists k :: 0 <= k < |obs| && Exceeds(obs[k], tol) && r == ResidualOf(obs[k]) {
      var k :| 0 <= k < |obs| && Exceeds(obs[k], tol) && r == ResidualOf(obs[k]);
      ResidualsComplete(obs, tol, k);
    }
  }

  /** Every reported row's difference exceeds the tolerance in size. */
  lemma ReportedExceed(obs: seq<ObsRec>, tol: real, r: Residual)
    requires r in Residuals(obs, tol)
    ensures Abs(r.diff) > tol
    ensures r.obs.adjusted.Some? && r.obs.observed.Some?
    ensures r.diff == r.obs.adjusted.value - r.obs.observed.value
  {
    ResidualsMembership(obs, tol, r);
  }

  /** The reports of earlier observations come first. */
  lemma {:induction false} ResidualsAppend(o1: seq<ObsRec>, o2: seq<ObsRec>, tol: real)
    ensures Residuals(o1 + o2, tol) == Residuals(o1, tol) + Residuals(o2, tol)
    decreases |o2|
  {
    if o2 == [] {
      assert o1 + o2 == o1;
    } else {
      var init := o2[..|o2| - 1];
      ResidualsAppend(o1, init, tol);
      assert (o1 + o2)[..|o1 + o2| - 1] == o1 + init;
      assert (o1 + o2)[|o1 + o2| - 1] == o2[|o2| - 1];
    }
  }

  /** A record missing its observed or adjusted value is never reported. */
  lemma MissingValueNotReported(o: ObsRec, tol: real)
    requires o.observed.None? || o.adjusted.None?
    ensures Residuals([o], tol) == []
  {
    assert [o][..0] == [];
  }

  /** The tolerance is strict: a direction residual of exactly 0.01 is not
      reported, one of 0.0101 is. */
  lemma DirectionToleranceIsStrict(from: Option<string>, to: Option<string>, v: real)
    ensures Residuals([ObsRec(from, to, Some(v), Some(v + 0.01))], DirMax) == []
    ensures Residuals([ObsRec(from, to, Some(v), Some(v + 0.0101))], DirMax) ==
      [Residual(ObsRec(from, to, Some(v), Some(v + 0.0101)), 0.0101)]
  {
    assert [ObsRec(from, to, Some(v), Some(v + 0.01))][..0] == [];
    assert [ObsRec(from, to, Some(v), Some(v + 0.0101))][..0] == [];
  }

  /** The loop over one observation list printing the rows whose residual
      exceeds tol. */
  method ReportResiduals(obs: seq<ObsRec>, tol: real) returns (rows: seq<Residual>)
    ensures rows == Residuals(obs, tol)
  {
    rows := [];
    var i := 0;
    while i < |obs|
      invariant 0 <= i <= |obs|
      invariant rows == Residuals(obs[..i], tol)
    {
      var o := obs[i];
      if o.observed.Some? && o.adjusted.Some? && Abs(o.adjusted.value - o.observed.value) > tol {
        rows := rows + [Residual(o, o.adjusted.value - o.observed.value)];
      }
      assert obs[..i + 1][..i] == obs[..i];
      i := i + 1;
    }
    assert obs[..i] == obs;
  }

  // ---------------------------------------------------------------------
  // gamaXml2coor

  /** The six element lists gamaXml2coor selects, each element given by its
      children. */
  datatype Selections = Selections(
    fixed: seq<seq<Child>>, approximate: seq<seq<Child>>, adjusted: seq<seq<Child>>,
    directions: seq<seq<Child>>, slopeDistances: seq<seq<Child>>, zenithAngles: seq<seq<Child>>)

  /** What gamaXml2coor writes: the fixed points, the coordinate table and the
      three residual lists. */
  datatype Report = Report(fixed: seq<PointRec>, pairs: seq<PairRow>, directions: seq<Residual>,
                           slopeDistances: seq<Residual>, zenithAngles: seq<Residual>)

  /** The report, or the first exception raised, parsing in the order of the
      source (fixed, approximate, adjusted, then the observation lists). */
  function ReportOf(s: Selections): Result<Report> {
    match ParseAll(s.fixed, ParsePoint)
    case Err(e) => Err(e)
    case Ok(fixed) =>
    match ParseAll(s.approximate, ParsePoint)
    case Err(e) => Err(e)
    case Ok(approximate) =>
    match ParseAll(s.adjusted, ParsePoint)
    case Err(e) => Err(e)
    case Ok(adjusted) =>
    match ParseAll(s.directions, ParseObs)
    case Err(e) => Err(e)
    case Ok(dirs) =>
    match ParseAll(s.slopeDistances, ParseObs)
    case Err(e) => Err(e)
    case Ok(dists) =>
    match ParseAll(s.zenithAngles, ParseObs)
    case Err(e) => Err(e)
    case Ok(angles) =>
      Ok(Report(fixed, Pairs(approximate, adjusted), Residuals(dirs, DirMax),
                Residuals(dists, DistMax), Residuals(angles, ZAngMax)))
  }

  /** A report is produced exactly when every selected element parses, and
      then it lists every fixed point, in document order. */
  lemma ReportSucceeds(s: Selections)
    ensures ReportOf(s).Ok? <==>
      && (forall k :: 0 <= k < |s.fixed| ==> ParsePoint(s.fixed[k]).Ok?)
      && (forall k :: 0 <= k < |s.approximate| ==> ParsePoint(s.approximate[k]).Ok?)
      && (forall k :: 0 <= k < |s.adjusted| ==> ParsePoint(s.adjusted[k]).Ok?)
      && (forall k :: 0 <= k < |s.directions| ==> ParseObs(s.directions[k]).Ok?)
      && (forall k :: 0 <= k < |s.slopeDistances| ==> ParseObs(s.slopeDistances[k]).Ok?)
      && (forall k :: 0 <= k < |s.zenithAngles| ==> ParseObs(s.zenithAngles[k]).Ok?)
    ensures ReportOf(s).Ok? ==>
      && |ReportOf(s).value.fixed| == |s.fixed|
      && forall k :: 0 <= k < |s.fixed| ==> ParsePoint(s.fixed[k]) == Ok(ReportOf(s).value.fixed[k])
  {
    ParseAllSpec(s.fixed, ParsePoint);
    ParseAllSpec(s.approximate, ParsePoint);
    ParseAllSpec(s.adjusted, ParsePoint);
    ParseAllSpec(s.directions, ParseObs);
    ParseAllSpec(s.slopeDistances, ParseObs);
    ParseAllSpec(s.zenithAngles, ParseObs);
  }

  /** gamaXml2coor after the XPath selections: parse, pair and filter. */
  method GamaXmlToCoor(s: Selections) returns (r: Result<Report>)
    ensures r == ReportOf(s)
  {
    var fixed := ParsePointList(s.fixed);
    if fixed.Err? { return Err(fixed.error); }
    var approximate := ParsePointList(s.approximate);
    if approximate.Err? { return Err(approximate.error); }
    var adjusted := ParsePointList(s.adjusted);
    if adjusted.Err? { return Err(adjusted.error); }
    var pairs := PairPoints(approximate.value, adjusted.value);
    var dirs := ParseObsList(s.directions);
    if dirs.Err? { return Err(dirs.error); }
    var dists := ParseObsList(s.slopeDistances);
    if dists.Err? { return Err(dists.error); }
    var angles := ParseObsList(s.zenithAngles);
    if angles.Err? { return Err(angles.error); }
    var dirRows := ReportResiduals(dirs.value, DirMax);
    var distRows := ReportResiduals(dists.value, DistMax);
    var angleRows := ReportResiduals(angles.value, ZAngMax);
    r := Ok(Report(fixed.value, pairs, dirRows, distRows, angleRows));
  }
}
