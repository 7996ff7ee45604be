/** Gama XML elements and the helpers that build and merge them (gama/xml.py).
    An element is an object with a tag, an ordered attribute list and its
    children; attribute lists follow lxml: setting an existing name replaces
    its value where it stands, setting a new name appends it, popping removes it. */
module GamaXml {
  import opened Common
  import opened Builtins
  import opened GamaUtils

  datatype Attr = Attr(name: string, value: string)

  type Attrs = seq<Attr>

  /** The attribute names, in document order. */
  function Names(a: Attrs): (ns: seq<string>)
    ensures |ns| == |a|
  {
    seq(|a|, i requires 0 <= i < |a| => a[i].name)
  }

  /** element.get(name): the value of the first attribute called name, if any. */
  function Lookup(a: Attrs, name: string): Option<string> {
    if a == [] then None
    else if a[0].name == name then Some(a[0].value)
    else Lookup(a[1..], name)
  }

  /** name in element.attrib */
  predicate Has(a: Attrs, name: string) {
    Lookup(a, name).Some?
  }

  /** No attribute name occurs twice, as in every XML element. */
  predicate UniqueNames(a: Attrs) {
    a == [] || (!Has(a[1..], a[0].name) && UniqueNames(a[1..]))
  }

  /** element.set(name, value). */
  function SetAttr(a: Attrs, name: string, value: string): (r: Attrs)
    ensures Lookup(r, name) == Some(value)
    ensures !Has(a, name) ==> r == a + [Attr(name, value)]
  {
    if a == [] then [Attr(name, value)]
    else if a[0].name == name then [Attr(name, value)] + a[1..]
    else [a[0]] + SetAttr(a[1..], name, value)
  }

  /** element.attrib.pop(name). */
  function PopAttr(a: Attrs, name: string): (r: Attrs)
    ensures !Has(a, name) ==> r == a
    ensures |r| == if Has(a, name) then |a| - 1 else |a|
  {
    if a == [] then []
    else if a[0].name == name then a[1..]
    else [a[0]] + PopAttr(a[1..], name)
  }

  /** The attributes whose names are not in ns, in their order. */
  function Except(a: Attrs, ns: set<string>): Attrs {
    if a == [] then []
    else (if a[0].name in ns then [] else [a[0]]) + Except(a[1..], ns)
  }

  // --- lemmas about attribute lists ---

  /** In a list where no earlier attribute shares its name, the i-th attribute is
      the one a lookup finds. */
  lemma {:induction false} LookupAt(a: Attrs, i: nat)
    requires i < |a| && forall j :: 0 <= j < i ==> a[j].name != a[i].name
    ensures Lookup(a, a[i].name) == Some(a[i].value)
  {
    if i > 0 {
      assert a[0].name != a[i].name;
      assert a[1..][i - 1] == a[i];
      LookupAt(a[1..], i - 1);
    }
  }

  lemma {:induction false} LookupAbsent(a: Attrs, name: string)
    requires forall j :: 0 <= j < |a| ==> a[j].name != name
    ensures Lookup(a, name) == None
  {
    if a != [] {
      assert a[0].name != name;
      assert forall j :: 0 <= j < |a[1..]| ==> a[1..][j] == a[j + 1];
      LookupAbsent(a[1..], name);
    }
  }

  /** A lookup in a + b finds a's attribute when a has one, b's otherwise. */
  lemma {:induction false} LookupAppend(a: Attrs, b: Attrs)
    ensures forall n :: Lookup(a + b, n) == if Has(a, n) then Lookup(a, n) else Lookup(b, n)
  {
    if a == [] {
      assert a + b == b;
    } else {
      LookupAppend(a[1..], b);
      assert (a + b)[0] == a[0] && (a + b)[1..] == a[1..] + b;
    }
  }

  /** Setting name changes what a lookup of name finds and nothing else. */
  lemma {:induction false} LookupSetAttr(a: Attrs, name: string, value: string, m: string)
    ensures Lookup(SetAttr(a, name, value), m) == if m == name then Some(value) else Lookup(a, m)
  {
    if a != [] && a[0].name != name {
      LookupSetAttr(a[1..], name, value, m);
    }
  }

  /** Setting an existing name keeps every attribute where it stood. */
  lemma {:induction false} SetAttrInPlace(a: Attrs, name: string, value: string)
    requires Has(a, name)
    ensures Names(SetAttr(a, name, value)) == Names(a)
  {
    if a[0].name != name {
      SetAttrInPlace(a[1..], name, value);
      var r := SetAttr(a, name, value);
      assert forall i :: 0 <= i < |r| ==> Names(r)[i] == Names(a)[i] by {
        forall i | 0 <= i < |r|
          ensures Names(r)[i] == Names(a)[i]
        {
          if i > 0 {
            assert Names(r)[i] == Names(SetAttr(a[1..], name, value))[i - 1];
            assert Names(a)[i] == Names(a[1..])[i - 1];
          }
        }
      }
    }
  }

  /** Popping name removes it from a list without duplicates and changes nothing else. */
  lemma {:induction false} LookupPopAttr(a: Attrs, name: string, m: string)
    requires UniqueNames(a)
    ensures Lookup(PopAttr(a, name), m) == if m == name then None else Lookup(a, m)
  {
    if a != [] && a[0].name != name {
      LookupPopAttr(a[1..], name, m);
    }
  }

  lemma {:induction false} SetAttrUnique(a: Attrs, name: string, value: string)
    requires UniqueNames(a)
    ensures UniqueNames(SetAttr(a, name, value))
  {
    if a != [] {
      var r := SetAttr(a, name, value);
      if a[0].name == name {
        assert r[1..] == a[1..];
      } else {
        SetAttrUnique(a[1..], name, value);
        LookupSetAttr(a[1..], name, value, a[0].name);
        assert r[1..] == SetAttr(a[1..], name, value);
      }
    }
  }

  lemma {:induction false} PopAttrUnique(a: Attrs, name: string)
    requires UniqueNames(a)
    ensures UniqueNames(PopAttr(a, name))
  {
    if a != [] && a[0].name != name {
      var r := PopAttr(a, name);
      PopAttrUnique(a[1..], name);
      LookupPopAttr(a[1..], name, a[0].name);
      assert r[1..] == PopAttr(a[1..], name);
    }
  }

  lemma {:induction false} SetAttrSameValue(a: Attrs, name: string, value: string)
    requires Lookup(a, name) == Some(value)
    ensures SetAttr(a, name, value) == a
  {
    if a[0].name != name {
      SetAttrSameValue(a[1..], name, value);
    }
  }

  lemma {:induction false} PopAttrAppended(a: Attrs, b: Attrs, name: string)
    requires !Has(a, name)
    ensures PopAttr(a + b, name) == a + PopAttr(b, name)
  {
    if a == [] {
      assert a + b == b;
    } else {
      assert a[0].name != name;
      assert (a + b)[0] == a[0] && (a + b)[1..] == a[1..] + b;
      PopAttrAppended(a[1..], b, name);
      assert a + PopAttr(b, name) == [a[0]] + (a[1..] + PopAttr(b, name));
    }
  }

  lemma PopLast(a: Attrs, attr: Attr)
    requires !Has(a, attr.name)
    ensures PopAttr(a + [attr], attr.name) == a
  {
    PopAttrAppended(a, [attr], attr.name);
  }

  lemma {:induction false} ExceptSetAttr(a: Attrs, name: string, value: string, ns: set<string>)
    requires name in ns
    ensures Except(SetAttr(a, name, value), ns) == Except(a, ns)
  {
    if a != [] && a[0].name != name {
      ExceptSetAttr(a[1..], name, value, ns);
      assert SetAttr(a, name, value)[1..] == SetAttr(a[1..], name, value);
    }
  }

  lemma {:induction false} ExceptPopAttr(a: Attrs, name: string, ns: set<string>)
    requires name in ns
    ensures Except(PopAttr(a, name), ns) == Except(a, ns)
  {
    if a != [] && a[0].name != name {
      ExceptPopAttr(a[1..], name, ns);
      assert PopAttr(a, name)[1..] == PopAttr(a[1..], name);
    }
  }

  // ---------------------------------------------------------------------------
  // Elements
  // ---------------------------------------------------------------------------

  class Element {
    var tag: string
    var attrib: Attrs
    var children: seq<Element>

    constructor (tag: string, attrib: Attrs)
      ensures this.tag == tag && this.attrib == attrib && children == []
    {
      this.tag := tag;
      this.attrib := attrib;
      children := [];
    }

    function Get(name: string): Option<string>
      reads this
    {
      Lookup(attrib, name)
    }

    method Set(name: string, value: string)
      modifies this
      ensures attrib == SetAttr(old(attrib), name, value)
      ensures tag == old(tag) && children == old(children)
    {
      attrib := SetAttr(attrib, name, value);
    }

    method Pop(name: string)
      modifies this
      ensures attrib == PopAttr(old(attrib), name)
      ensures tag == old(tag) && children == old(children)
    {
      attrib := PopAttr(attrib, name);
    }
  }

  /** et.SubElement(parent, tag, attrib): a new element appended to parent's children. */
  method SubElement(parent: Element, tag: string, attrib: Attrs) returns (e: Element)
    modifies parent
    ensures fresh(e) && e.tag == tag && e.attrib == attrib && e.children == []
    ensures parent.children == old(parent.children) + [e]
    ensures parent.tag == old(parent.tag) && parent.attrib == old(parent.attrib)
  {
    e := new Element(tag, attrib);
    parent.children := parent.children + [e];
  }

  /** An element that carries exactly the given tag and attributes and no children. */
  predicate IsLeaf(e: Element, tag: string, attrib: Attrs)
    reads e
  {
    e.tag == tag && e.attrib == attrib && e.children == []
  }

  // ---------------------------------------------------------------------------
  // updatePointEl: merge a point record into an existing point element
  // ---------------------------------------------------------------------------

  /** A per-point override of the fix/adj attributes. */
  datatype Override = Override(fix: Option<string>, adj: Option<string>)

  type PointSettings = map<string, Override>

  /** The attribute list after an update, and the exception it ended with, if any. */
  datatype Update = Update(attrs: Attrs, failure: Option<Error>)

  function PopIfPresent(a: Attrs, name: string): Attrs {
    if Has(a, name) then PopAttr(a, name) else a
  }

  /** Drop fix and adj where present. */
  function ClearFlags(a: Attrs): Attrs {
    PopIfPresent(PopIfPresent(a, "fix"), "adj")
  }

  /** Reapply the override for the element's id, or adj="XYZ" when it has none. */
  function ApplyFlags(a: Attrs, settings: PointSettings): Attrs {
    var id := Lookup(a, "id");
    if id.Some? && id.value in settings then
      var o := settings[id.value];
      var withFix := if o.fix.Some? then SetAttr(a, "fix", o.fix.value) else a;
      if o.adj.Some? then SetAttr(withFix, "adj", o.adj.value) else withFix
    else SetAttr(a, "adj", "XYZ")
  }

  /** updatePointEl(pointEl, point, pointSettings) on the element's attributes.
      The update happens only when the id attribute equals point[0] exactly; a
      point record shorter than four fields raises IndexError part-way through. */
  function UpdatedPoint(a: Attrs, point: seq<string>, settings: PointSettings): Update {
    if |point| == 0 then Update(a, Some(IndexError))
    else if Lookup(a, "id") != Some(point[0]) then Update(a, None)
    else
      var cleared := ClearFlags(a);
      if |point| < 2 then Update(cleared, Some(IndexError))
      else
        var withX := SetAttr(cleared, "x", point[1]);
        if |point| < 3 then Update(withX, Some(IndexError))
        else
          var withY := SetAttr(withX, "y", point[2]);
          if |point| < 4 then Update(withY, Some(IndexError))
          else
            var withZ := SetAttr(withY, "z", point[3]);
            Update(ApplyFlags(withZ, settings), None)
  }

  /** updatePointEl, in place on the element. */
  method UpdatePointEl(pointEl: Element, point: seq<string>, settings: PointSettings)
    returns (failure: Option<Error>)
    modifies pointEl
    ensures pointEl.attrib == UpdatedPoint(old(pointEl.attrib), point, settings).attrs
    ensures failure == UpdatedPoint(old(pointEl.attrib), point, settings).failure
    ensures pointEl.tag == old(pointEl.tag) && pointEl.children == old(pointEl.children)
  {
    if |point| == 0 {
      return Some(IndexError);
    }
    if pointEl.Get("id") == Some(point[0]) {
      if Has(pointEl.attrib, "fix") {
        pointEl.Pop("fix");
      }
      if Has(pointEl.attrib, "adj") {
        pointEl.Pop("adj");
      }
      if |point| < 2 {
        return Some(IndexError);
      }
      pointEl.Set("x", point[1]);
      if |point| < 3 {
        return Some(IndexError);
      }
      pointEl.Set("y", point[2]);
      if |point| < 4 {
        return Some(IndexError);
      }
      pointEl.Set("z", point[3]);
      var id := pointEl.Get("id");
      if id.Some? && id.value in settings {
        var o := settings[id.value];
        if o.fix.Some? {
          pointEl.Set("fix", o.fix.value);
        }
        if o.adj.Some? {
          pointEl.Set("adj", o.adj.value);
        }
      } else {
        pointEl.Set("adj", "XYZ");
      }
    }
    return None;
  }

  lemma ExceptPopIfPresent(a: Attrs, name: string, ns: set<string>)
    requires name in ns
    ensures Except(PopIfPresent(a, name), ns) == Except(a, ns)
  {
    if Has(a, name) {
      ExceptPopAttr(a, name, ns);
    }
  }

  /** The attributes updatePointEl may write. */
  const Touched: set<string> := {"fix", "adj", "x", "y", "z"}

  /** x, y and z set in turn, as updatePointEl does once the flags are cleared. */
  function WithCoords(a: Attrs, point: seq<string>): Attrs
    requires |point| >= 4
  {
    SetAttr(SetAttr(SetAttr(a, "x", point[1]), "y", point[2]), "z", point[3])
  }

  /** The complete merge, when the id matches and the record is long enough. */
  lemma MatchedUpdate(a: Attrs, point: seq<string>, settings: PointSettings)
    requires |point| >= 4 && Lookup(a, "id") == Some(point[0])
    ensures UpdatedPoint(a, point, settings) == Update(ApplyFlags(WithCoords(ClearFlags(a), point), settings), None)
  {
  }

  lemma PopIfPresentLookup(a: Attrs, name: string, m: string)
    requires UniqueNames(a)
    ensures Lookup(PopIfPresent(a, name), m) == if m == name then None else Lookup(a, m)
    ensures UniqueNames(PopIfPresent(a, name))
  {
    if Has(a, name) {
      LookupPopAttr(a, name, m);
      PopAttrUnique(a, name);
    }
  }

  lemma PopIfPresentOther(a: Attrs, name: string, m: string)
    requires m != name
    ensures Lookup(PopIfPresent(a, name), m) == Lookup(a, m)
  {
    if Has(a, name) {
      PopOther(a, name, m);
    }
  }

  lemma {:induction false} PopOther(a: Attrs, name: string, m: string)
    requires m != name
    ensures Lookup(PopAttr(a, name), m) == Lookup(a, m)
  {
    if a != [] && a[0].name != name {
      PopOther(a[1..], name, m);
    }
  }

  /** Clearing the flags leaves every other attribute's value alone ... */
  lemma ClearFlagsOther(a: Attrs, m: string)
    requires m != "fix" && m != "adj"
    ensures Lookup(ClearFlags(a), m) == Lookup(a, m)
  {
    PopIfPresentOther(a, "fix", m);
    PopIfPresentOther(PopIfPresent(a, "fix"), "adj", m);
  }

  /** ... and, in a list without duplicates, leaves neither flag behind. */
  lemma ClearFlagsRemoves(a: Attrs)
    requires UniqueNames(a)
    ensures UniqueNames(ClearFlags(a)) && !Has(ClearFlags(a), "fix") && !Has(ClearFlags(a), "adj")
  {
    var c0 := PopIfPresent(a, "fix");
    PopIfPresentLookup(a, "fix", "fix");
    PopIfPresentLookup(c0, "adj", "adj");
    PopIfPresentOther(c0, "adj", "fix");
  }

  lemma WithCoordsLookup(a: Attrs, point: seq<string>, m: string)
    requires |point| >= 4
    ensures Lookup(WithCoords(a, point), m) ==
      if m == "z" then Some(point[3]) else if m == "y" then Some(point[2])
      else if m == "x" then Some(point[1]) else Lookup(a, m)
  {
    LookupSetAttr(a, "x", point[1], m);
    LookupSetAttr(SetAttr(a, "x", point[1]), "y", point[2], m);
    LookupSetAttr(SetAttr(SetAttr(a, "x", point[1]), "y", point[2]), "z", point[3], m);
  }

  lemma WithCoordsUnique(a: Attrs, point: seq<string>)
    requires |point| >= 4 && UniqueNames(a)
    ensures UniqueNames(WithCoords(a, point))
  {
    SetAttrUnique(a, "x", point[1]);
    SetAttrUnique(SetAttr(a, "x", point[1]), "y", point[2]);
    SetAttrUnique(SetAttr(SetAttr(a, "x", point[1]), "y", point[2]), "z", point[3]);
  }

  /** Applying the flags writes fix and adj only. */
  lemma ApplyFlagsOther(a: Attrs, settings: PointSettings, m: string)
    requires m != "fix" && m != "adj"
    ensures Lookup(ApplyFlags(a, settings), m) == Lookup(a, m)
  {
    var id := Lookup(a, "id");
    if id.Some? && id.value in settings {
      var o := settings[id.value];
      var withFix := if o.fix.Some? then SetAttr(a, "fix", o.fix.value) else a;
      if o.fix.Some? {
        LookupSetAttr(a, "fix", o.fix.value, m);
      }
      if o.adj.Some? {
        LookupSetAttr(withFix, "adj", o.adj.value, m);
      }
    } else {
      LookupSetAttr(a, "adj", "XYZ", m);
    }
  }

  lemma ExceptApplyFlags(a: Attrs, settings: PointSettings)
    ensures Except(ApplyFlags(a, settings), Touched) == Except(a, Touched)
  {
    var id := Lookup(a, "id");
    if id.Some? && id.value in settings {
      var o := settings[id.value];
      var withFix := if o.fix.Some? then SetAttr(a, "fix", o.fix.value) else a;
      if o.fix.Some? {
        ExceptSetAttr(a, "fix", o.fix.value, Touched);
      }
      if o.adj.Some? {
        ExceptSetAttr(withFix, "adj", o.adj.value, Touched);
      }
    } else {
      ExceptSetAttr(a, "adj", "XYZ", Touched);
    }
  }

  // --- the properties of updatePointEl ---

  /** An element whose id is not exactly point[0] (the comparison is case-sensitive)
      is left as it was; an empty record raises IndexError before anything changes. */
  lemma UpdateOtherIdUnchanged(a: Attrs, point: seq<string>, settings: PointSettings)
    ensures |point| == 0 ==> UpdatedPoint(a, point, settings) == Update(a, Some(IndexError))
    ensures |point| > 0 && Lookup(a, "id") != Some(point[0]) ==> UpdatedPoint(a, point, settings) == Update(a, None)
  {
  }

  /** An id differing only in letter case is not a match. */
  lemma CaseSensitiveMatch(settings: PointSettings)
    ensures UpdatedPoint([Attr("id", "1P25")], ["1p25", "1", "2", "3"], settings) == Update([Attr("id", "1P25")], None)
  {
    assert "1P25" != "1p25" by { assert "1P25"[1] != "1p25"[1]; }
  }

  /** A matching record shorter than four fields raises IndexError. */
  lemma UpdateShortRecordFails(a: Attrs, point: seq<string>, settings: PointSettings)
    requires 0 < |point| < 4 && Lookup(a, "id") == Some(point[0])
    ensures UpdatedPoint(a, point, settings).failure == Some(IndexError)
  {
  }

  /** On a matching id, x, y and z take the record's values and id is kept. */
  lemma UpdateSetsCoordinates(a: Attrs, point: seq<string>, settings: PointSettings)
    requires |point| >= 4 && Lookup(a, "id") == Some(point[0])
    ensures UpdatedPoint(a, point, settings).failure == None
    ensures var r := UpdatedPoint(a, point, settings).attrs;
      && Lookup(r, "x") == Some(point[1]) && Lookup(r, "y") == Some(point[2])
      && Lookup(r, "z") == Some(point[3]) && Lookup(r, "id") == Some(point[0])
  {
    MatchedUpdate(a, point, settings);
    var w := WithCoords(ClearFlags(a), point);
    forall m | m in ["x", "y", "z", "id"]
      ensures Lookup(ApplyFlags(w, settings), m) == Lookup(w, m)
    {
      ApplyFlagsOther(w, settings, m);
    }
    WithCoordsLookup(ClearFlags(a), point, "x");
    WithCoordsLookup(ClearFlags(a), point, "y");
    WithCoordsLookup(ClearFlags(a), point, "z");
    WithCoordsLookup(ClearFlags(a), point, "id");
    ClearFlagsOther(a, "id");
  }

  /** The list the flags are applied to: cleared, coordinates set, no duplicates. */
  lemma MergeBase(a: Attrs, point: seq<string>)
    requires UniqueNames(a) && |point| >= 4
    ensures var w := WithCoords(ClearFlags(a), point);
      UniqueNames(w) && !Has(w, "fix") && !Has(w, "adj") && Lookup(w, "id") == Lookup(a, "id")
  {
    ClearFlagsRemoves(a);
    WithCoordsUnique(ClearFlags(a), point);
    WithCoordsLookup(ClearFlags(a), point, "fix");
    WithCoordsLookup(ClearFlags(a), point, "adj");
    WithCoordsLookup(ClearFlags(a), point, "id");
    ClearFlagsOther(a, "id");
  }

  /** On a matching id with no settings entry, the element ends with adj="XYZ" and no fix. */
  lemma UpdateDefaultFlags(a: Attrs, point: seq<string>, settings: PointSettings)
    requires UniqueNames(a) && |point| >= 4 && Lookup(a, "id") == Some(point[0])
    requires point[0] !in settings
    ensures var r := UpdatedPoint(a, point, settings).attrs;
      Lookup(r, "adj") == Some("XYZ") && Lookup(r, "fix") == None
  {
    MatchedUpdate(a, point, settings);
    MergeBase(a, point);
    LookupSetAttr(WithCoords(ClearFlags(a), point), "adj", "XYZ", "fix");
  }

  /** On a matching id with a settings entry, fix and adj are present exactly when
      the entry gives them, with the entry's values. */
  lemma UpdateOverrideFlags(a: Attrs, point: seq<string>, settings: PointSettings)
    requires UniqueNames(a) && |point| >= 4 && Lookup(a, "id") == Some(point[0])
    requires point[0] in settings
    ensures var r := UpdatedPoint(a, point, settings).attrs;
      Lookup(r, "fix") == settings[point[0]].fix && Lookup(r, "adj") == settings[point[0]].adj
  {
    MatchedUpdate(a, point, settings);
    MergeBase(a, point);
    var w := WithCoords(ClearFlags(a), point);
    var o := settings[point[0]];
    var withFix := if o.fix.Some? then SetAttr(w, "fix", o.fix.value) else w;
    if o.fix.Some? {
      LookupSetAttr(w, "fix", o.fix.value, "adj");
    }
    if o.adj.Some? {
      LookupSetAttr(withFix, "adj", o.adj.value, "fix");
    }
  }

  /** Attributes other than fix, adj, x, y and z keep their values and their order,
      whatever the outcome. */
  lemma UpdateKeepsOthers(a: Attrs, point: seq<string>, settings: PointSettings)
    ensures Except(UpdatedPoint(a, point, settings).attrs, Touched) == Except(a, Touched)
  {
    if |point| > 0 && Lookup(a, "id") == Some(point[0]) {
      ExceptPopIfPresent(a, "fix", Touched);
      ExceptPopIfPresent(PopIfPresent(a, "fix"), "adj", Touched);
      var c := ClearFlags(a);
      if |point| >= 2 {
        ExceptSetAttr(c, "x", point[1], Touched);
        var cx := SetAttr(c, "x", point[1]);
        if |point| >= 3 {
          ExceptSetAttr(cx, "y", point[2], Touched);
          var cy := SetAttr(cx, "y", point[2]);
          if |point| >= 4 {
            ExceptSetAttr(cy, "z", point[3], Touched);
            ExceptApplyFlags(SetAttr(cy, "z", point[3]), settings);
          }
        }
      }
    }
  }

  /** The merge keeps the element free of duplicate attribute names. */
  lemma UpdateKeepsUnique(a: Attrs, point: seq<string>, settings: PointSettings)
    requires UniqueNames(a)
    ensures UniqueNames(UpdatedPoint(a, point, settings).attrs)
  {
    if |point| > 0 && Lookup(a, "id") == Some(point[0]) {
      ClearFlagsRemoves(a);
      var c := ClearFlags(a);
      if |point| >= 2 {
        SetAttrUnique(c, "x", point[1]);
        var cx := SetAttr(c, "x", point[1]);
        if |point| >= 3 {
          SetAttrUnique(cx, "y", point[2]);
          var cy := SetAttr(cx, "y", point[2]);
          if |point| >= 4 {
            SetAttrUnique(cy, "z", point[3]);
            var w := SetAttr(cy, "z", point[3]);
            var o := if point[0] in settings then settings[point[0]] else Override(None, Some("XYZ"));
            var withFix := if o.fix.Some? then SetAttr(w, "fix", o.fix.value) else w;
            if o.fix.Some? {
              SetAttrUnique(w, "fix", o.fix.value);
            }
            if o.adj.Some? {
              SetAttrUnique(withFix, "adj", o.adj.value);
            }
            MergeBase(a, point);
          }
        }
      }
    }
  }

  /** Clearing the flags that ApplyFlags appended gives back the list it started from. */
  lemma ClearApplied(b: Attrs, settings: PointSettings)
    requires !Has(b, "fix") && !Has(b, "adj")
    ensures ClearFlags(ApplyFlags(b, settings)) == b
  {
    var id := Lookup(b, "id");
    if id.Some? && id.value in settings {
      var o := settings[id.value];
      if o.fix.Some? {
        var withFix := b + [Attr("fix", o.fix.value)];
        assert SetAttr(b, "fix", o.fix.value) == withFix;
        if o.adj.Some? {
          LookupSetAttr(b, "fix", o.fix.value, "adj");
          var both := b + [Attr("fix", o.fix.value), Attr("adj", o.adj.value)];
          assert SetAttr(withFix, "adj", o.adj.value) == both;
          PopAttrAppended(b, [Attr("fix", o.fix.value), Attr("adj", o.adj.value)], "fix");
          assert PopIfPresent(both, "fix") == b + [Attr("adj", o.adj.value)];
          PopLast(b, Attr("adj", o.adj.value));
        } else {
          PopLast(b, Attr("fix", o.fix.value));
        }
      } else if o.adj.Some? {
        LookupSetAttr(b, "adj", o.adj.value, "fix");
        PopLast(b, Attr("adj", o.adj.value));
      }
    } else {
      LookupSetAttr(b, "adj", "XYZ", "fix");
      PopLast(b, Attr("adj", "XYZ"));
    }
  }

  /** Merging the same record twice gives the same attribute list as merging it once. */
  lemma UpdateIdempotent(a: Attrs, point: seq<string>, settings: PointSettings)
    requires UniqueNames(a) && |point| >= 4
    ensures var once := UpdatedPoint(a, point, settings);
      UpdatedPoint(once.attrs, point, settings) == once
  {
    if Lookup(a, "id") == Some(point[0]) {
      MatchedUpdate(a, point, settings);
      MergeBase(a, point);
      var w := WithCoords(ClearFlags(a), point);
      var once := ApplyFlags(w, settings);
      ApplyFlagsOther(w, settings, "id");
      MatchedUpdate(once, point, settings);
      ClearApplied(w, settings);
      WithCoordsLookup(ClearFlags(a), point, "x");
      WithCoordsLookup(ClearFlags(a), point, "y");
      WithCoordsLookup(ClearFlags(a), point, "z");
      SetAttrSameValue(w, "x", point[1]);
      SetAttrSameValue(w, "y", point[2]);
      SetAttrSameValue(w, "z", point[3]);
    }
  }

  // ---------------------------------------------------------------------------
  // addPointEl, addObsEl, addDirEl, addDistEl, addSdistEl, addZangleEl
  // ---------------------------------------------------------------------------

  /** The data addPointEl accepts: a bare id string, or a record [id, x, y, z, ...]. */
  datatype PointData = IdOnly(id: string) | Record(fields: seq<string>)

  /** The attributes addPointEl gives a new point element. A record with three
      fields or fewer reaches the return with pointEl unbound. */
  function PointAttrs(data: PointData): (r: Result<Attrs>)
    ensures r.Err? <==> data.Record? && |data.fields| <= 3
    ensures r.Err? ==> r.error == UnboundLocalError
    ensures r.Ok? && data.IdOnly? ==> (
      && Names(r.value) == ["id", "adj"]
      && Lookup(r.value, "id") == Some(Upper(data.id))
      && Lookup(r.value, "adj") == Some("xyz"))
    ensures r.Ok? && data.Record? ==> (
      && Names(r.value) == ["id", "x", "y", "z", "adj"]
      && Lookup(r.value, "id") == Some(Upper(data.fields[0]))
      && Lookup(r.value, "x") == Some(data.fields[1])
      && Lookup(r.value, "y") == Some(data.fields[2])
      && Lookup(r.value, "z") == Some(data.fields[3])
      && Lookup(r.value, "adj") == Some("XYZ"))
  {
    match data
    case IdOnly(id) =>
      var a := [Attr("id", Upper(id)), Attr("adj", "xyz")];
      LookupAt(a, 1);
      Ok(a)
    case Record(f) =>
      if |f| > 3 then
        var a := [Attr("id", Upper(f[0])), Attr("x", f[1]), Attr("y", f[2]), Attr("z", f[3]), Attr("adj", "XYZ")];
        LookupAt(a, 1); LookupAt(a, 2); LookupAt(a, 3); LookupAt(a, 4);
        Ok(a)
      else Err(UnboundLocalError)
  }

  /** A point built by addPointEl from a record is already what merging the
      record into it, with no override, makes of it: both the record as given
      (whose id may differ from the stored, upper-cased one, and so not match)
      and the record with its id upper-cased, as addPointEl stores it. */
  lemma {:induction false} AddedPointIsMerged(f: seq<string>)
    requires |f| > 3
    ensures var a := PointAttrs(Record(f)).value;
      UpdatedPoint(a, [Upper(f[0])] + f[1..], map[]) == Update(a, None)
    ensures var a := PointAttrs(Record(f)).value;
      UpdatedPoint(a, f, map[]) == Update(a, None)
  {
    var a := PointAttrs(Record(f)).value;
    var point := [Upper(f[0])] + f[1..];
    if Upper(f[0]) == f[0] {
      assert point == f;
    } else {
      assert Lookup(a, "id") == Some(Upper(f[0]));
      UpdateOtherIdUnchanged(a, f, map[]);
    }
    MatchedUpdate(a, point, map[]);
    var c := [Attr("id", point[0]), Attr("x", point[1]), Attr("y", point[2]), Attr("z", point[3])];
    assert a == c + [Attr("adj", "XYZ")];
    AddedPointFlags(point[0], point[1], point[2], point[3]);
    AddedPointCoords(c, point);
  }

  lemma AddedPointFlags(id: string, x: string, y: string, z: string)
    ensures var c := [Attr("id", id), Attr("x", x), Attr("y", y), Attr("z", z)];
      ClearFlags(c + [Attr("adj", "XYZ")]) == c && ApplyFlags(c, map[]) == c + [Attr("adj", "XYZ")]
  {
    var c := [Attr("id", id), Attr("x", x), Attr("y", y), Attr("z", z)];
    var a := c + [Attr("adj", "XYZ")];
    LookupAbsent(c, "adj");
    LookupAbsent(c, "fix");
    assert !Has(a, "fix") by { LookupSetAttr(c, "adj", "XYZ", "fix"); }
    PopLast(c, Attr("adj", "XYZ"));
  }

  lemma AddedPointCoords(c: Attrs, point: seq<string>)
    requires |point| >= 4
    requires c == [Attr("id", point[0]), Attr("x", point[1]), Attr("y", point[2]), Attr("z", point[3])]
    ensures WithCoords(c, point) == c
  {
    LookupAt(c, 1); LookupAt(c, 2); LookupAt(c, 3);
    SetAttrSameValue(c, "x", point[1]);
    SetAttrSameValue(c, "y", point[2]);
    SetAttrSameValue(c, "z", point[3]);
  }

  /** The attributes of the obs (station) element addObsEl adds. */
  function ObsAttrs(data: seq<string>): (r: Result<Attrs>)
    ensures r.Err? <==> |data| < 2
    ensures r.Err? ==> r.error == IndexError
    ensures r.Ok? ==> (
      && Names(r.value) == ["from", "from_dh"]
      && Lookup(r.value, "from") == Some(data[0])
      && Lookup(r.value, "from_dh") == Some(data[1]))
  {
    if |data| < 2 then Err(IndexError)
    else
      var a := [Attr("from", data[0]), Attr("from_dh", data[1])];
      LookupAt(a, 1);
      Ok(a)
  }

  /** front followed by the stdev attribute, or the exception computing the stdev raised. */
  function WithStdDev(front: Attrs, sd: Result<string>): (r: Result<Attrs>)
    requires forall j :: 0 <= j < |front| ==> front[j].name != "stdev"
    ensures r.Ok? <==> sd.Ok?
    ensures r.Err? ==> r.error == sd.error
    ensures r.Ok? ==> Names(r.value) == Names(front) + ["stdev"] && Lookup(r.value, "stdev") == Some(sd.value)
    ensures r.Ok? ==> forall n :: n != "stdev" ==> Lookup(r.value, n) == Lookup(front, n)
  {
    if sd.Err? then Err(sd.error)
    else
      var last := [Attr("stdev", sd.value)];
      var a := front + last;
      assert last[1..] == [];
      assert forall n :: n != "stdev" ==> Lookup(last, n) == None;
      assert Names(a) == Names(front) + ["stdev"];
      LookupAt(a, |front|);
      LookupAppend(front, last);
      Ok(a)
  }

  /** The attributes of a direction element: the target, the reading data[3] and
      the stdev from data[1]. */
  function DirAttrs(data: seq<string>): (r: Result<Attrs>)
    ensures |data| < 4 ==> r == Err(IndexError)
    ensures |data| >= 4 ==> (r.Ok? <==> GetStdDev("direction", data).Ok?)
    ensures r.Err? && |data| >= 4 ==> r.error == GetStdDev("direction", data).error
    ensures r.Ok? ==> (
      && Names(r.value) == ["to", "val", "stdev"]
      && Lookup(r.value, "to") == Some(data[0])
      && Lookup(r.value, "val") == Some(data[3])
      && Lookup(r.value, "stdev") == Some(GetStdDev("direction", data).value))
  {
    if |data| < 4 then Err(IndexError)
    else
      var front := [Attr("to", data[0]), Attr("val", data[3])];
      LookupAt(front, 1);
      WithStdDev(front, GetStdDev("direction", data))
  }

  /** The attributes of a horizontal-distance element. The reduced distance
      str(redSdist(data)) is passed in, as an outcome, rather than computed. */
  function DistAttrs(data: seq<string>, reduced: Result<string>): (r: Result<Attrs>)
    ensures |data| == 0 ==> r == Err(IndexError)
    ensures |data| > 0 && reduced.Err? ==> r == Err(reduced.error)
    ensures |data| > 0 && reduced.Ok? && GetStdDev("distance", data).Err? ==> r == Err(GetStdDev("distance", data).error)
    ensures r.Ok? <==> (|data| > 0 && reduced.Ok? && GetStdDev("distance", data).Ok?)
    ensures r.Ok? ==> (
      && Names(r.value) == ["to", "val", "stdev"]
      && Lookup(r.value, "to") == Some(data[0])
      && Lookup(r.value, "val") == Some(reduced.value)
      && Lookup(r.value, "stdev") == Some(GetStdDev("distance", data).value))
  {
    if |data| == 0 then Err(IndexError)
    else if reduced.Err? then Err(reduced.error)
    else
      var front := [Attr("to", data[0]), Attr("val", reduced.value)];
      LookupAt(front, 1);
      WithStdDev(front, GetStdDev("distance", data))
  }

  /** The attributes of a slope-distance (kind "s-distance") or zenith-angle (kind
      "z-angle") element: target, target height data[2], the value data[1] and the
      stdev for kind. As written, both kinds read the value from data[1]. */
  function TargetHeightAttrs(kind: string, data: seq<string>): (r: Result<Attrs>)
    ensures |data| < 3 ==> r == Err(IndexError)
    ensures |data| >= 3 ==> (r.Ok? <==> GetStdDev(kind, data).Ok?)
    ensures r.Err? && |data| >= 3 ==> r.error == GetStdDev(kind, data).error
    ensures r.Ok? ==> (
      && Names(r.value) == ["to", "to_dh", "val", "stdev"]
      && Lookup(r.value, "to") == Some(data[0])
      && Lookup(r.value, "to_dh") == Some(data[2])
      && Lookup(r.value, "val") == Some(data[1])
      && Lookup(r.value, "stdev") == Some(GetStdDev(kind, data).value))
  {
    if |data| < 3 then Err(IndexError)
    else
      var front := [Attr("to", data[0]), Attr("to_dh", data[2]), Attr("val", data[1])];
      LookupAt(front, 1); LookupAt(front, 2);
      WithStdDev(front, GetStdDev(kind, data))
  }

  /** Append a child built from attrs, or raise attrs' exception and leave parent alone. */
  method AddChild(parent: Element, tag: string, attrs: Result<Attrs>) returns (r: Result<Element>)
    modifies parent
    ensures attrs.Err? ==> r == Err(attrs.error) && parent.children == old(parent.children)
    ensures attrs.Ok? ==> (r.Ok? && fresh(r.value) && IsLeaf(r.value, tag, attrs.value)
      && parent.children == old(parent.children) + [r.value])
    ensures parent.tag == old(parent.tag) && parent.attrib == old(parent.attrib)
  {
    if attrs.Err? {
      return Err(attrs.error);
    }
    var e := SubElement(parent, tag, attrs.value);
    return Ok(e);
  }

  /** addPointEl(pointsObservations, data). */
  method AddPointEl(pointsObservations: Element, data: PointData) returns (r: Result<Element>)
    modifies pointsObservations
    ensures PointAttrs(data).Err? ==> (r == Err(UnboundLocalError)
      && pointsObservations.children == old(pointsObservations.children))
    ensures PointAttrs(data).Ok? ==> (r.Ok? && fresh(r.value) && IsLeaf(r.value, "point", PointAttrs(data).value)
      && pointsObservations.children == old(pointsObservations.children) + [r.value])
    ensures pointsObservations.tag == old(pointsObservations.tag)
    ensures pointsObservations.attrib == old(pointsObservations.attrib)
  {
    r := AddChild(pointsObservations, "point", PointAttrs(data));
  }

  /** addObsEl(pointsObservations, data). */
  method AddObsEl(pointsObservations: Element, data: seq<string>) returns (r: Result<Element>)
    modifies pointsObservations
    ensures ObsAttrs(data).Err? ==> (r == Err(IndexError)
      && pointsObservations.children == old(pointsObservations.children))
    ensures ObsAttrs(data).Ok? ==> (r.Ok? && fresh(r.value) && IsLeaf(r.value, "obs", ObsAttrs(data).value)
      && pointsObservations.children == old(pointsObservations.children) + [r.value])
    ensures pointsObservations.tag == old(pointsObservations.tag)
    ensures pointsObservations.attrib == old(pointsObservations.attrib)
  {
    r := AddChild(pointsObservations, "obs", ObsAttrs(data));
  }

  /** addDirEl(obs, data). */
  method AddDirEl(obs: Element, data: seq<string>) returns (r: Result<Element>)
    modifies obs
    ensures DirAttrs(data).Err? ==> r == Err(DirAttrs(data).error) && obs.children == old(obs.children)
    ensures DirAttrs(data).Ok? ==> (r.Ok? && fresh(r.value) && IsLeaf(r.value, "direction", DirAttrs(data).value)
      && obs.children == old(obs.children) + [r.value])
    ensures obs.tag == old(obs.tag) && obs.attrib == old(obs.attrib)
  {
    r := AddChild(obs, "direction", DirAttrs(data));
  }

  /** addDistEl(obs, data), with str(redSdist(data)) given as reduced. */
  method AddDistEl(obs: Element, data: seq<string>, reduced: Result<string>) returns (r: Result<Element>)
    modifies obs
    ensures DistAttrs(data, reduced).Err? ==> (r == Err(DistAttrs(data, reduced).error)
      && obs.children == old(obs.children))
    ensures DistAttrs(data, reduced).Ok? ==> (r.Ok? && fresh(r.value)
      && IsLeaf(r.value, "distance", DistAttrs(data, reduced).value)
      && obs.children == old(obs.children) + [r.value])
    ensures obs.tag == old(obs.tag) && obs.attrib == old(obs.attrib)
  {
    r := AddChild(obs, "distance", DistAttrs(data, reduced));
  }

  /** addSdistEl(obs, data). */
  method AddSdistEl(obs: Element, data: seq<string>) returns (r: Result<Element>)
    modifies obs
    ensures TargetHeightAttrs("s-distance", data).Err? ==> r == Err(TargetHeightAttrs("s-distance", data).error) && obs.children == old(obs.children)
    ensures TargetHeightAttrs("s-distance", data).Ok? ==> (r.Ok? && fresh(r.value) && IsLeaf(r.value, "s-distance", TargetHeightAttrs("s-distance", data).value)
      && obs.children == old(obs.children) + [r.value])
    ensures obs.tag == old(obs.tag) && obs.attrib == old(obs.attrib)
  {
    r := AddChild(obs, "s-distance", TargetHeightAttrs("s-distance", data));
  }

  /** addZangleEl(obs, data). */
  method AddZangleEl(obs: Element, data: seq<string>) returns (r: Result<Element>)
    modifies obs
    ensures TargetHeightAttrs("z-angle", data).Err? ==> r == Err(TargetHeightAttrs("z-angle", data).error) && obs.children == old(obs.children)
    ensures TargetHeightAttrs("z-angle", data).Ok? ==> (r.Ok? && fresh(r.value) && IsLeaf(r.value, "z-angle", TargetHeightAttrs("z-angle", data).value)
      && obs.children == old(obs.children) + [r.value])
    ensures obs.tag == old(obs.tag) && obs.attrib == old(obs.attrib)
  {
    r := AddChild(obs, "z-angle", TargetHeightAttrs("z-angle", data));
  }
}
