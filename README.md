# gama-local-utils in Dafny

gama-local-utils is a set of small converters around GNU Gama's `gama-local`
network adjustment:

- **coor2gama** reads a coordinate list (`id x y z ...`, split on whitespace or
  commas). It writes every line with more than four fields as a `point`
  element with `adj="XYZ"`.
- **mapa2gama** reads a total-station record. A station line (`1 from ih`)
  opens an `obs` element. Each five-field measurement line (`to sd th hz z`)
  adds a `direction`, an `s-distance` and a `z-angle` to the last station.
  Each of these gets the fixed stdev `10`.
- **gama/xml.py** builds and edits those elements:
  - `addPointEl`, `addObsEl`, `addDirEl`, `addDistEl`, `addSdistEl` and
    `addZangleEl` append children;
  - `updatePointEl` merges a coordinate record and the per-point `fix`/`adj`
    overrides into an existing `point`.
- **gama/utils.py** (`getStdDev`) derives a measurement's standard deviation
  from the record's second field.
- **gama2txt** reads a gama-local adjustment result:
  - `parserPointEl` and `parserObsEl` turn elements into records;
  - it pairs each approximate point with the adjusted points of the same id,
    and the coordinate differences;
  - it lists the directions, slope distances and zenith angles whose adjusted
    value differs from the observed one by more than a tolerance.

The model is split into modules:

| module | contents |
|---|---|
| `Common` | `Option`, `Result` and the Python exceptions the code raises, as `Error` values |
| `Builtins` | the parts of `str.split`, `str.upper`, `float()`, `round()` and `str(int)` the code relies on |
| `GamaUtils` | `getStdDev` |
| `GamaXml` | `class Element` (an lxml element: tag, ordered attributes, children) and the xml.py operations |
| `Settings` | the shipped `pointSettings` table |
| `CoorToGama`, `MapaToGama` | the per-line loops of the two converters |
| `GamaToTxt` | the record parsers, the pairing and the tolerance filters |

How state is modelled:

- Elements are mutated in place in the source, so they are objects here. The
  methods that change them are proved against pure functions on attribute
  lists (`SetAttr`, `PopAttr`, `UpdatedPoint`, `PointAttrs`, ...).
- The converters' loops are methods whose new state is tied to a fold over the
  input lines (`CoordinatePoints`, `RunLines`).
- The result parser's loops are tied to folds over child elements (`ParsePoint`,
  `ParseObs`) and to list functions (`ParseAll`, `Pairs`, `Residuals`).
- An exception becomes an `Err` outcome. Changes made before it are kept, as
  in the source. This matters for an `updatePointEl` record shorter than four
  fields and for a mapa2gama run that stops on a bad line.

## Model

| member | source | states |
|---|---|---|
| GamaUtils.Reading | gama/utils.py:26 | float(data[1]): IndexError for a record shorter than two fields, otherwise Ok exactly when the field parses, else ValueError |
| GamaUtils.AngleStdDev | gama/utils.py:26 | the angle formula fails (ZeroDivisionError) exactly when the reading is zero |
| GamaUtils.GetStdDev | gama/utils.py:11-32 | an unknown type leaves stdDev unbound (UnboundLocalError), and only then; a short record raises IndexError; an unparsable data[1] raises ValueError |
| GamaUtils.SameFormulaPairs | gama/utils.py:25-30 | direction and z-angle share the formula, and so do distance and s-distance |
| GamaUtils.OnlySecondFieldRead | gama/utils.py:26-30 | two records agreeing in data[1] get the same stdev for any type |
| GamaUtils.AngleStdDevClosedForm | gama/utils.py:20-26 | the direction stdev is round(6000 / reading) |
| GamaUtils.AngleStdDevAntitone | gama/utils.py:26 | for positive readings the direction stdev does not grow as the reading grows |
| GamaUtils.DistanceStdDevAtLeastBase | gama/utils.py:21-28 | a non-negative distance reading gives a stdev of at least 15 |
| GamaUtils.DistanceStdDevMonotone | gama/utils.py:28 | the distance stdev is monotone in the reading |
| GamaUtils.DirectionExample | gama/utils.py:25-26 | a direction reading "200" gives the stdev "30" |
| GamaUtils.DistanceExample | gama/utils.py:27-28 | a distance reading "500" gives the stdev "16" |
| GamaUtils.ZeroReadingDivides | gama/utils.py:26 | a direction reading "0" raises ZeroDivisionError |
| GamaUtils.StdDevTextReadsBack | gama/utils.py:26-32 | a returned stdev is the str of an integer and reads back through float() |
| GamaXml.SetAttr | gama/xml.py:72-74 | after set(name, v), get(name) is v; a new name is appended at the end |
| GamaXml.PopAttr | gama/xml.py:67-70 | pop removes one attribute when present and changes nothing otherwise |
| GamaXml.LookupSetAttr | gama/xml.py:72-74 | set changes the value of that name only |
| GamaXml.LookupPopAttr | gama/xml.py:67-70 | on a duplicate-free list, pop makes the name absent and keeps every other name's value |
| GamaXml.SetAttrInPlace | gama/xml.py:72-74 | setting an existing attribute keeps the order of the names |
| GamaXml.Element.Set | gama/xml.py:72-74 | the element's attributes become SetAttr of the old ones; tag and children are unchanged |
| GamaXml.Element.Pop | gama/xml.py:67-70 | the element's attributes become PopAttr of the old ones; tag and children are unchanged |
| GamaXml.SubElement | gama/xml.py:41-48 | a fresh leaf with the given tag and attributes is appended as the parent's last child |
| GamaXml.UpdatePointEl | gama/xml.py:52-87 | the element's attributes and the exception raised are those of UpdatedPoint; tag and children are unchanged |
| GamaXml.UpdateOtherIdUnchanged | gama/xml.py:61-87 | an element whose id is not point[0] is returned unchanged; an empty record raises IndexError |
| GamaXml.CaseSensitiveMatch | gama/xml.py:61 | ids that differ only in letter case do not match |
| GamaXml.UpdateShortRecordFails | gama/xml.py:72-74 | a matching record with fewer than four fields raises IndexError |
| GamaXml.UpdateSetsCoordinates | gama/xml.py:72-74 | a matching full record sets x, y and z to fields 1-3 and keeps the id |
| GamaXml.UpdateDefaultFlags | gama/xml.py:83-85 | a point without a settings entry ends with adj="XYZ" and no fix |
| GamaXml.UpdateOverrideFlags | gama/xml.py:77-81 | a point with a settings entry has fix and adj exactly as the entry gives them |
| GamaXml.UpdateKeepsOthers | gama/xml.py:67-85 | attributes other than fix, adj, x, y and z keep their values and order, whatever the outcome |
| GamaXml.UpdateKeepsUnique | gama/xml.py:67-85 | the merge never creates a duplicate attribute name |
| GamaXml.UpdateIdempotent | gama/xml.py:52-87 | merging the same full record twice gives what merging it once gives |
| GamaXml.PointAttrs | gama/xml.py:31-50 | a bare id gives [id=upper(id), adj="xyz"]; a record of more than three fields gives id, x, y, z, adj="XYZ"; a shorter record leaves pointEl unbound |
| GamaXml.AddedPointIsMerged | gama/xml.py:45-87 | a point added from a record is a fixed point of updatePointEl with no overrides, both for the record as given and for the record whose id is upper-cased, as addPointEl stores it |
| GamaXml.AddPointEl | gama/xml.py:31-50 | appends one point leaf with PointAttrs' attributes, or raises and leaves the parent unchanged |
| GamaXml.ObsAttrs | gama/xml.py:97-98 | [from=data[0], from_dh=data[1]], or IndexError for a record shorter than two fields |
| GamaXml.AddObsEl | gama/xml.py:89-100 | appends one obs leaf with ObsAttrs' attributes, or raises and changes nothing |
| GamaXml.DirAttrs | gama/xml.py:110-111 | to=data[0], val=data[3], stdev=getStdDev('direction'); IndexError below four fields; otherwise getStdDev's exception |
| GamaXml.AddDirEl | gama/xml.py:102-113 | appends one direction leaf with DirAttrs' attributes, or raises and changes nothing |
| GamaXml.DistAttrs | gama/xml.py:123-125 | to=data[0], val=the reduced distance, stdev=getStdDev('distance'); IndexError on an empty record, then the reduction's exception, then getStdDev's |
| GamaXml.AddDistEl | gama/xml.py:115-127 | appends one distance leaf with DistAttrs' attributes, or raises and changes nothing |
| GamaXml.TargetHeightAttrs | gama/xml.py:137-153 | to=data[0], to_dh=data[2], val=data[1], stdev for the kind; IndexError below three fields |
| GamaXml.AddSdistEl | gama/xml.py:129-141 | appends one s-distance leaf, or raises and changes nothing |
| GamaXml.AddZangleEl | gama/xml.py:143-155 | appends one z-angle leaf (val taken from data[1] as written), or raises and changes nothing |
| Settings.ListedPointHoldsPlan | settings.py:1-12 | a listed point merged with these settings gets fix="xy" and adj="Z" |
| Settings.UnlistedPointAdjustsAll | settings.py:1-12 | an unlisted point gets adj="XYZ" and no fix |
| CoorToGama.LineFields | coor2gama.py:31-35 | a line with a comma splits into Count+1 comma-free fields that join back to the line; otherwise into whitespace-free words |
| CoorToGama.LineFieldsSpacedOut | coor2gama.py:34-35 | a comma-free line is its fields with whitespace gaps around them, the gaps between two fields non-empty |
| CoorToGama.LineFieldsOfWords | coor2gama.py:34-35 | conversely, any such decomposition of a comma-free line (tabs, blank runs, a trailing newline) gives exactly its words as the fields |
| CoorToGama.SpacedLineGivesPoint | coor2gama.py:34-40 | a comma-free line of five or more words, however spaced, gives the point of its first four words |
| CoorToGama.PointOfFields | coor2gama.py:37-40 | only more than four fields give a point: id, x, y, z from fields 0-3 as they stand, then adj="XYZ" |
| CoorToGama.LinePoints | coor2gama.py:29-40 | a line contributes at most one point |
| CoorToGama.CoordinatePointsAppend | coor2gama.py:29 | the points of a concatenation are the points of each part, in order |
| CoorToGama.PointsFollowLines | coor2gama.py:29-40 | line i's point sits between the points of the earlier and the later lines |
| CoorToGama.BareRecordEmitsNothing | coor2gama.py:35-38 | a four-word "id x y z" line gives no point |
| CoorToGama.CommaLineExample | coor2gama.py:32-40 | a comma line keeps empty fields, the trailing newline field and the id's case |
| CoorToGama.ConvertCoordinates | coor2gama.py:29-40 | appends exactly one fresh point child per entry of CoordinatePoints(lines), in order, and nothing else |
| MapaToGama.StripPointCode | mapa2gama.py:33-37 | an empty line raises IndexError; a last token containing '*' is dropped, anything else is kept |
| MapaToGama.RemoveAt | mapa2gama.py:48-49 | list.pop(i) for an index in range removes exactly element i, keeping the elements before and after it in order (the source pops index 1 of a six-field list only, so an out-of-range index, where Python raises IndexError, does not arise) |
| MapaToGama.OrientationLeaves | mapa2gama.py:51-57 | the direction, s-distance and z-angle with their attributes in order, taken from the five fields and the station's ih, stdev "10" |
| MapaToGama.BlankLineFails | mapa2gama.py:33-36 | a blank line raises IndexError and stops the run |
| MapaToGama.StationOpensBlock | mapa2gama.py:40-42 | a "1 " line with three fields opens a new station block with from=data[1] and ih=data[2] |
| MapaToGama.MeasurementExtendsLastBlock | mapa2gama.py:45-57 | a five-field line adds its three leaves to the last station only |
| MapaToGama.MeasurementBeforeStationFails | mapa2gama.py:45-51 | a measurement before any station raises UnboundLocalError |
| MapaToGama.OtherLinesIgnored | mapa2gama.py:40-45 | any other line changes nothing |
| MapaToGama.PointCodeDroppedBeforeClassifying | mapa2gama.py:36-40 | a point code on a station line is removed before the field count is tested |
| MapaToGama.FailureSticks | mapa2gama.py:30-57 | once a line raises, no later line changes the result |
| MapaToGama.StepExtends | mapa2gama.py:40-57 | a line never removes or reorders stations or leaves |
| MapaToGama.RunExtends | mapa2gama.py:30-57 | reading more lines only extends what was built |
| MapaToGama.OpenBlock | mapa2gama.py:41 | appends a fresh obs child and mirrors it as a new empty station block |
| MapaToGama.AddMeasurement | mapa2gama.py:51-57 | appends three fresh leaves to the station element, the ones OrientationLeaves gives |
| MapaToGama.LineData | mapa2gama.py:33-37 | the fields of the line after the point code is removed, or IndexError |
| MapaToGama.ApplyLine | mapa2gama.py:39-57 | the element tree changes exactly as StepOn changes the block model for one line |
| MapaToGama.ConvertMapa | mapa2gama.py:30-57 | the children appended mirror RunLines(lines) block for block and leaf for leaf, and the run raises what RunLines raises |
| GamaToTxt.LocalName | gama2txt.py:23 | an unqualified tag is its own local name |
| GamaToTxt.LocalNameOfQualified | gama2txt.py:23 | the local name of "{ns}name" is name |
| GamaToTxt.ToFloat | gama2txt.py:27 | float(text): TypeError on a missing text, ValueError on an unparsable one, Ok exactly when it parses |
| GamaToTxt.PointSlots | gama2txt.py:19-33 | each component of a parsed point is the one from the last child for it (id: "id" only; x/y/z: either case), or the default |
| GamaToTxt.PointFails | gama2txt.py:21-31 | parsing fails exactly when some coordinate child does not parse, with the first such child's error |
| GamaToTxt.PointItemSets | gama2txt.py:24-31 | one child changes only the component its tag names |
| GamaToTxt.UpperCaseIdIgnored | gama2txt.py:24 | an "ID" child is ignored |
| GamaToTxt.EitherCaseSetsX | gama2txt.py:26-27 | "x" and "X" both set the x coordinate |
| GamaToTxt.ParsePointEl | gama2txt.py:13-33 | the loop computes ParsePoint |
| GamaToTxt.ObsSlots | gama2txt.py:41-55 | each component of a parsed observation is the one from its last child, or the default |
| GamaToTxt.ObsFails | gama2txt.py:43-53 | parsing fails exactly when some obs/adj child does not parse, with the first such child's error |
| GamaToTxt.ObsItemSets | gama2txt.py:46-53 | one child changes only the component its tag names |
| GamaToTxt.ParseObsEl | gama2txt.py:35-55 | the loop computes ParseObs |
| GamaToTxt.ParseAllSpec | gama2txt.py:86-96 | a list parses exactly when every element does, keeping length and order |
| GamaToTxt.ParsePointList | gama2txt.py:86-96 | the loop computes ParseAll with ParsePoint |
| GamaToTxt.ParseObsList | gama2txt.py:131-141 | the loop computes ParseAll with ParseObs |
| GamaToTxt.Sub | gama2txt.py:116 | a difference exists exactly when both values do, and then a == b + d |
| GamaToTxt.PairsMembership | gama2txt.py:110-116 | a row is listed exactly when it pairs an approximate point with an adjusted point of the same id |
| GamaToTxt.PairsAppend | gama2txt.py:110 | rows follow the order of the approximate points |
| GamaToTxt.DuplicateIdsGiveSeveralRows | gama2txt.py:111-112 | an id adjusted twice gives two rows, in the adjusted list's order |
| GamaToTxt.PairPoints | gama2txt.py:110-116 | the nested loops compute Pairs |
| GamaToTxt.Abs | gama2txt.py:144 | abs is non-negative and is x or -x |
| GamaToTxt.ResidualsMembership | gama2txt.py:143-160 | an observation is reported exactly when both values are present and differ by more than the tolerance |
| GamaToTxt.ReportedExceed | gama2txt.py:144-146 | every reported difference is adj - obs and exceeds the tolerance |
| GamaToTxt.ResidualsAppend | gama2txt.py:143 | reported rows follow the observations' order |
| GamaToTxt.MissingValueNotReported | gama2txt.py:144 | an observation missing a value (NaN in the source) is never reported |
| GamaToTxt.DirectionToleranceIsStrict | gama2txt.py:143-146 | a direction off by exactly 0.01 is not reported; one off by 0.0101 is |
| GamaToTxt.ReportResiduals | gama2txt.py:143-160 | the filter loop computes Residuals |
| GamaToTxt.ReportSucceeds | gama2txt.py:86-141 | the report exists exactly when every selected element parses; then the fixed list has one record per element, in order |
| GamaToTxt.GamaXmlToCoor | gama2txt.py:57-160 | the run computes ReportOf: the parsed lists, the pairs and the three filtered lists |
| Builtins.JoinSplit | coor2gama.py:33 | splitting on a separator and joining with it gives back the string |
| Builtins.SplitWsWords | coor2gama.py:35 | a whitespace split gives non-empty, whitespace-free words |
| Builtins.SplitWsGaps | coor2gama.py:35 | every string is its whitespace-split tokens interleaved with whitespace gaps, non-empty between tokens |
| Builtins.SplitWsOfSpacedOut | coor2gama.py:35 | words interleaved with such gaps split back into exactly those words |
| Builtins.Round | gama/utils.py:26 | round(): the nearest integer, a half going to the even neighbour |
| Builtins.RoundUnique | gama/utils.py:26 | any integer within a half of x, and even when exactly a half away, is round(x) |
| Builtins.IntStrRoundTrip | gama/utils.py:26 | float(str(n)) is n |

## Left out

- XPath queries and namespace lookup in gama2txt.py (lines 64-80 and 121-128)
  are left out. The model receives each selected element as its list of
  children.
- Text output is left out: the `sys.stdout.write` lines, `{:12.3f}` formatting
  and the XML serialisation written by coor2gama.py and mapa2gama.py. The
  model's results are the records and rows that would be written.
- GamaXmlToCoor: in the source, rows written before a later list fails to parse
  have already been printed. Formatting a missing id, `from` or `to` raises
  TypeError. The model returns only the final outcome.
- Reading stdin and argv is left out; the lines are a parameter.
- The document skeletons are left out: initGamaXml (gama/xml.py:13-29) and the
  fixed headers of coor2gama.py and mapa2gama.py. COOR_SETTINGS and XML_SETTINGS
  in settings.py are left out too. They are constants written into output or
  unused by the modelled code.
- redSdist (gama/utils.py:34-42) uses `sin`, which exact reals cannot model.
  GamaXml.DistAttrs instead takes the reduced distance as an outcome parameter.
- Floating point is modelled with exact reals. The NaN defaults of the parsers
  become `None`. round() is modelled as half-to-even on exact values, with no
  binary rounding of the operands.
- float() accepts an optional sign, digits, an optional fraction and
  surrounding whitespace, with ASCII digits '0'-'9' only. Exponents, `inf`,
  `nan`, underscores and non-ASCII Unicode decimal digits (full-width,
  Arabic-Indic, ...) are not modelled; they parse as failures.
- str.upper is modelled for ASCII letters only.
- MapaToGama: the six-field branch of mapa2gama.py:45 tests `data[1] == 2`,
  comparing a string with an integer, so it never fires. It is modelled as
  written (StrEqualsInt is always false).
- GamaXml.AddZangleEl: the zenith-angle value is read from data[1], as written.
- Element identity beyond the parent's list of children (an element held in
  two trees) is not modelled.
