/**
 * The typed in-memory model of GFA (Graphical Fragment Assembly) records:
 * orientations, tagged optional fields and their `tag:type:value` text,
 * the record kinds (header, segment, link, containment, path), the `Line`
 * union over them, the parsing configuration and the collection of records.
 */
module Gfa {
  import opened Text

  // ---------------------------------------------------------------------
  // Machine integers and floats
  // ---------------------------------------------------------------------

  newtype i64 = x: int | -0x8000_0000_0000_0000 <= x < 0x8000_0000_0000_0000
  newtype u32 = x: int | 0 <= x < 0x1_0000_0000
  newtype usize = x: int | 0 <= x < 0x1_0000_0000_0000_0000

  /** An IEEE-754 single-precision value, kept as its 32-bit pattern. */
  type F32 = bv32

  datatype Option<T> = None | Some(value: T)

  /** `Ok` or an error carrying the message the source returns. */
  datatype Result<T> = Ok(value: T) | Err(message: string)

  // ---------------------------------------------------------------------
  // Orientation
  // ---------------------------------------------------------------------

  datatype Orientation = Forward | Backward

  const OrientationParseError: string := "Could not parse orientation (was not + or -)"

  /** The orientation used when none is given programmatically. */
  function DefaultOrientation(): (o: Orientation)
    ensures !IsReverse(o)
    ensures OrientationText(o) == "+"
  {
    Forward
  }

  /** True only for the reverse strand. */
  function IsReverse(o: Orientation): (b: bool)
    ensures b <==> OrientationText(o) == "-"
  {
    match o
    case Forward => false
    case Backward => true
  }

  /** The one-character symbol of an orientation. */
  function OrientationText(o: Orientation): (s: string)
    ensures |s| == 1 && (s[0] == '+' || s[0] == '-')
  {
    match o
    case Forward => "+"
    case Backward => "-"
  }

  /** Strict parse: exactly "+" or "-"; anything else is an error. */
  function ParseOrientation(s: string): (r: Result<Orientation>)
    ensures r.Ok? <==> s == "+" || s == "-"
    ensures r.Ok? ==> OrientationText(r.value) == s
    ensures r.Err? ==> r.message == OrientationParseError
  {
    if s == "+" then Ok(Forward)
    else if s == "-" then Ok(Backward)
    else Err(OrientationParseError)
  }

  /** Rendering and parsing are inverse, in both directions. */
  lemma OrientationRoundTrip(o: Orientation, s: string)
    ensures ParseOrientation(OrientationText(o)) == Ok(o)
    ensures ParseOrientation(s) == Ok(o) <==> s == OrientationText(o)
  {
  }

  /** The empty string and "++" are rejected. */
  lemma OrientationRejects()
    ensures ParseOrientation("") == Err(OrientationParseError)
    ensures ParseOrientation("++") == Err(OrientationParseError)
  {
  }

  // ---------------------------------------------------------------------
  // Optional fields
  // ---------------------------------------------------------------------

  datatype OptionalFieldValue =
    | PrintableChar(ch: char)
    | SignedInt(number: i64)
    | Float(float: F32)
    | PrintableString(text: string)
    | JSON(json: string)
    | ByteArray(bytes: seq<u32>)
    | IntArray(ints: seq<i64>)
    | FloatArray(floats: seq<F32>)

  datatype OptionalField = OptionalField(tag: string, content: OptionalFieldValue)

  /** An optional field holding `tag` and `content` as given. */
  function NewOptionalField(tag: string, content: OptionalFieldValue): (f: OptionalField)
    ensures f.tag == tag && f.content == content
  {
    OptionalField(tag, content)
  }

  /** The one-character type code written after the tag. */
  function TypeCode(v: OptionalFieldValue): char {
    match v
    case PrintableChar(_) => 'A'
    case SignedInt(_) => 'i'
    case Float(_) => 'f'
    case PrintableString(_) => 'Z'
    case JSON(_) => 'J'
    case ByteArray(_) => 'H'
    case IntArray(_) => 'B'
    case FloatArray(_) => 'B'
  }

  /** A value can be rendered: every byte-array element is one hex digit. */
  predicate Renderable(v: OptionalFieldValue) {
    v.ByteArray? ==> forall k :: 0 <= k < |v.bytes| ==> v.bytes[k] < 16
  }

  /** One lowercase hex digit per element, in order. */
  function HexText(a: seq<u32>): (s: string)
    requires forall k :: 0 <= k < |a| ==> a[k] < 16
    ensures |s| == |a|
    ensures forall k :: 0 <= k < |a| ==> IsLowerHexDigit(s[k]) && HexValue(s[k]) == a[k] as nat
  {
    if |a| == 0 then "" else HexText(a[..|a| - 1]) + [HexDigit(a[|a| - 1] as nat)]
  }

  /** The decimal text of every element, in order. */
  function DecimalTexts(a: seq<i64>): (parts: seq<string>)
    ensures |parts| == |a|
    ensures forall k :: 0 <= k < |a| ==> NoComma(parts[k]) && IsDecimalText(parts[k]) && DecimalValue(parts[k]) == a[k] as int
    ensures forall k :: 0 <= k < |a| ==> parts[k] == IntToDecimal(a[k] as int)
  {
    seq(|a|, k requires 0 <= k < |a| => IntToDecimal(a[k] as int))
  }

  /** The text of every float, in order, by the given float formatter. */
  function FloatTexts(a: seq<F32>, floatText: F32 -> string): (parts: seq<string>)
    ensures |parts| == |a|
    ensures forall k :: 0 <= k < |a| ==> parts[k] == floatText(a[k])
  {
    seq(|a|, k requires 0 <= k < |a| => floatText(a[k]))
  }

  /**
   * The text after `tag:`: the type code, ':', then the value. Floats are
   * written by `floatText`, which stands for Rust's `f32` formatting.
   */
  function ValueText(v: OptionalFieldValue, floatText: F32 -> string): string
    requires Renderable(v)
  {
    match v
    case PrintableChar(c) => "A:" + [c]
    case SignedInt(i) => "i:" + IntToDecimal(i as int)
    case Float(d) => "f:" + floatText(d)
    case PrintableString(s) => "Z:" + s
    case JSON(s) => "J:" + s
    case ByteArray(a) => "H:" + HexText(a)
    case IntArray(a) => "B:I" + CommaJoined(DecimalTexts(a))
    case FloatArray(a) => "B:f" + CommaJoined(FloatTexts(a, floatText))
  }

  /** The full text `tag:type:value` of an optional field. */
  function FieldText(f: OptionalField, floatText: F32 -> string): (s: string)
    requires Renderable(f.content)
    ensures |s| >= |f.tag| + 3
    ensures s[..|f.tag| + 3] == f.tag + ":" + [TypeCode(f.content)] + ":"
  {
    f.tag + ":" + ValueText(f.content, floatText)
  }

  /** Builds the hex text of a byte array one digit at a time. */
  method HexString(a: seq<u32>) returns (arrayStr: string)
    requires forall k :: 0 <= k < |a| ==> a[k] < 16
    ensures arrayStr == HexText(a)
  {
    arrayStr := "";
    for k := 0 to |a|
      invariant arrayStr == HexText(a[..k])
    {
      assert a[..k + 1][..k] == a[..k];
      arrayStr := arrayStr + [HexDigit(a[k] as nat)];
    }
    assert a[..|a|] == a;
  }

  /** Builds the comma-separated decimal text of an integer array, element by element. */
  method IntArrayString(a: seq<i64>) returns (arrayStr: string)
    ensures arrayStr == CommaJoined(DecimalTexts(a))
  {
    ghost var parts := DecimalTexts(a);
    arrayStr := "";
    for k := 0 to |a|
      invariant arrayStr == CommaJoined(parts[..k])
    {
      CommaJoinedSnoc(parts, k);
      if k > 0 {
        arrayStr := arrayStr + ",";
      }
      arrayStr := arrayStr + IntToDecimal(a[k] as int);
    }
    assert parts[..|a|] == parts;
  }

  /** Builds the comma-separated text of a float array, element by element. */
  method FloatArrayString(a: seq<F32>, floatText: F32 -> string) returns (arrayStr: string)
    ensures arrayStr == CommaJoined(FloatTexts(a, floatText))
  {
    ghost var parts := FloatTexts(a, floatText);
    arrayStr := "";
    for k := 0 to |a|
      invariant arrayStr == CommaJoined(parts[..k])
    {
      CommaJoinedSnoc(parts, k);
      if k > 0 {
        arrayStr := arrayStr + ",";
      }
      arrayStr := arrayStr + floatText(a[k]);
    }
    assert parts[..|a|] == parts;
  }

  /**
   * Writes an optional field as `fmt` does: the tag and ':', then the
   * type code and the value, array values built element by element.
   */
  method Display(f: OptionalField, floatText: F32 -> string) returns (out: string)
    requires Renderable(f.content)
    ensures out == FieldText(f, floatText)
  {
    out := f.tag + ":";
    match f.content {
      case PrintableChar(c) =>
        out := out + "A:" + [c];
      case SignedInt(i) =>
        out := out + "i:" + IntToDecimal(i as int);
      case Float(d) =>
        out := out + "f:" + floatText(d);
      case PrintableString(s) =>
        out := out + "Z:" + s;
      case JSON(s) =>
        out := out + "J:" + s;
      case ByteArray(a) =>
        var arrayStr := HexString(a);
        out := out + "H:" + arrayStr;
      case IntArray(a) =>
        var arrayStr := IntArrayString(a);
        out := out + "B:I" + arrayStr;
      case FloatArray(a) =>
        var arrayStr := FloatArrayString(a, floatText);
        out := out + "B:f" + arrayStr;
    }
  }

  /**
   * An integer array renders as `tag:B:I` followed by the decimal texts
   * joined with single commas: n >= 1 elements give n - 1 commas, and
   * splitting at the commas and reading each piece gives the elements back.
   * An empty array renders as `tag:B:I` alone.
   */
  lemma IntArrayText(tag: string, a: seq<i64>, floatText: F32 -> string)
    ensures var s := FieldText(OptionalField(tag, IntArray(a)), floatText);
      && s[..|tag| + 4] == tag + ":B:I"
      && (|a| == 0 ==> s == tag + ":B:I")
      && (|a| >= 1 ==>
            var body := s[|tag| + 4..];
            && Count(body, ',') == |a| - 1
            && SplitAtCommas(body) == DecimalTexts(a)
            && |SplitAtCommas(body)| == |a|
            && forall k :: 0 <= k < |a| ==>
                 IsDecimalText(SplitAtCommas(body)[k]) && DecimalValue(SplitAtCommas(body)[k]) == a[k] as int)
  {
    var s := FieldText(OptionalField(tag, IntArray(a)), floatText);
    var parts := DecimalTexts(a);
    assert s == tag + ":B:I" + CommaJoined(parts);
    assert s[|tag| + 4..] == CommaJoined(parts);
    if |a| >= 1 {
      CommaJoinedSeparators(parts);
    }
  }

  /**
   * A signed integer renders as `tag:i:` followed by its decimal text:
   * a '-' only for negative values, no leading zero, reading back as the value.
   */
  lemma SignedIntText(tag: string, i: i64, floatText: F32 -> string)
    ensures var s := FieldText(OptionalField(tag, SignedInt(i)), floatText);
      && s[..|tag| + 3] == tag + ":i:"
      && var body := s[|tag| + 3..];
         && IsDecimalText(body) && DecimalValue(body) == i as int
         && (body[0] == '-' <==> i < 0)
         && var m := if i < 0 then body[1..] else body; m[0] == '0' ==> m == "0"
  {
    var s := FieldText(OptionalField(tag, SignedInt(i)), floatText);
    assert s[|tag| + 3..] == IntToDecimal(i as int);
  }

  /**
   * A float array renders as `tag:B:f` followed by the float texts joined
   * with single commas; when the float formatter never writes a comma,
   * splitting at the commas gives back exactly the float texts, in order.
   */
  lemma FloatArrayText(tag: string, a: seq<F32>, floatText: F32 -> string)
    requires forall k :: 0 <= k < |a| ==> NoComma(floatText(a[k]))
    ensures var s := FieldText(OptionalField(tag, FloatArray(a)), floatText);
      && s[..|tag| + 4] == tag + ":B:f"
      && (|a| == 0 ==> s == tag + ":B:f")
      && (|a| >= 1 ==>
            var body := s[|tag| + 4..];
            && Count(body, ',') == |a| - 1
            && SplitAtCommas(body) == FloatTexts(a, floatText)
            && forall k :: 0 <= k < |a| ==> SplitAtCommas(body)[k] == floatText(a[k]))
  {
    var s := FieldText(OptionalField(tag, FloatArray(a)), floatText);
    var parts := FloatTexts(a, floatText);
    assert s == tag + ":B:f" + CommaJoined(parts);
    assert s[|tag| + 4..] == CommaJoined(parts);
    if |a| >= 1 {
      CommaJoinedSeparators(parts);
    }
  }

  /**
   * A byte array renders as `tag:H:` followed by exactly one lowercase hex
   * digit per element, in order, whose value is that element.
   */
  lemma ByteArrayText(tag: string, a: seq<u32>, floatText: F32 -> string)
    requires forall k :: 0 <= k < |a| ==> a[k] < 16
    ensures var s := FieldText(OptionalField(tag, ByteArray(a)), floatText);
      && |s| == |tag| + 3 + |a|
      && s[..|tag| + 3] == tag + ":H:"
      && forall k :: 0 <= k < |a| ==> IsLowerHexDigit(s[|tag| + 3 + k]) && HexValue(s[|tag| + 3 + k]) == a[k] as nat
  {
  }

  /** The byte array `[1, 10, 15]` renders as `1af`. */
  lemma ByteArrayExample(floatText: F32 -> string)
    ensures FieldText(OptionalField("xx", ByteArray([1, 10, 15])), floatText) == "xx:H:1af"
  {
  }

  /** The integer array `[1, -2, 3]` renders as `B:I1,-2,3`. */
  lemma IntArrayExample(floatText: F32 -> string)
    ensures FieldText(OptionalField("xx", IntArray([1, -2, 3])), floatText) == "xx:B:I1,-2,3"
  {
    assert DigitChar(1) == '1' && DigitChar(2) == '2' && DigitChar(3) == '3';
    var parts := DecimalTexts([1, -2, 3]);
    assert parts[0] == "1" && parts[1] == "-2" && parts[2] == "3";
    assert parts[..2][..1] == [parts[0]];
    assert CommaJoined(parts[..2]) == "1,-2";
    assert parts[..3] == parts;
    assert CommaJoined(parts) == "1,-2,3";
  }

  // ---------------------------------------------------------------------
  // Records
  // ---------------------------------------------------------------------

  datatype Header = Header(version: Option<string>)

  datatype Segment = Segment(
    name: string,
    sequence: string,
    segmentLength: Option<i64>,
    readCount: Option<i64>,
    fragmentCount: Option<i64>,
    kmerCount: Option<i64>,
    sha256: Option<seq<u32>>,
    uri: Option<string>,
    optionalFields: seq<OptionalField>)

  datatype Link = Link(
    fromSegment: string,
    fromOrient: Orientation,
    toSegment: string,
    toOrient: Orientation,
    overlap: string,
    mapQuality: Option<i64>,
    numMismatches: Option<i64>,
    readCount: Option<i64>,
    fragmentCount: Option<i64>,
    kmerCount: Option<i64>,
    edgeId: Option<string>,
    optionalFields: seq<OptionalField>)

  datatype Containment = Containment(
    containerName: string,
    containerOrient: Orientation,
    containedName: string,
    containedOrient: Orientation,
    pos: usize,
    overlap: string,
    readCoverage: Option<i64>,
    numMismatches: Option<i64>,
    edgeId: Option<string>,
    optionalFields: seq<OptionalField>)

  /** One step of a path: a segment name and the orientation it is walked in. */
  type PathStep = (string, Orientation)

  datatype Path = Path(
    pathName: string,
    segmentNames: seq<PathStep>,
    overlaps: seq<string>,
    optionalFields: seq<OptionalField>)

  /** One line of a GFA file; comment lines carry nothing. */
  datatype Line =
    | HeaderLine(header: Header)
    | SegmentLine(segment: Segment)
    | LinkLine(link: Link)
    | ContainmentLine(containment: Containment)
    | PathLine(path: Path)
    | Comment

  /** Which record kinds a reader keeps. */
  datatype GFAParsingConfig = GFAParsingConfig(segments: bool, links: bool, containments: bool, paths: bool)

  /** The records of one file, by kind, with the declared version. */
  datatype GFA = GFA(
    version: Option<string>,
    segments: seq<Segment>,
    links: seq<Link>,
    containments: seq<Containment>,
    paths: seq<Path>)

  /** No optional segment attribute is set and there are no optional fields. */
  predicate SegmentAttributesAbsent(s: Segment) {
    && s.segmentLength.None? && s.readCount.None? && s.fragmentCount.None?
    && s.kmerCount.None? && s.sha256.None? && s.uri.None?
    && s.optionalFields == []
  }

  /** No optional link attribute is set and there are no optional fields. */
  predicate LinkAttributesAbsent(l: Link) {
    && l.mapQuality.None? && l.numMismatches.None? && l.readCount.None?
    && l.fragmentCount.None? && l.kmerCount.None? && l.edgeId.None?
    && l.optionalFields == []
  }

  /** A segment with the given name and sequence and nothing else. */
  function NewSegment(name: string, sequence: string): (s: Segment)
    ensures s.name == name && s.sequence == sequence
    ensures SegmentAttributesAbsent(s)
  {
    Segment(name, sequence, None, None, None, None, None, None, [])
  }

  /** A link between two oriented segment ends with the given overlap, and nothing else. */
  function NewLink(fromSegment: string, fromOrient: Orientation, toSegment: string, toOrient: Orientation, overlap: string): (l: Link)
    ensures l.fromSegment == fromSegment && l.fromOrient == fromOrient
    ensures l.toSegment == toSegment && l.toOrient == toOrient
    ensures l.overlap == overlap
    ensures LinkAttributesAbsent(l)
  {
    Link(fromSegment, fromOrient, toSegment, toOrient, overlap, None, None, None, None, None, None, [])
  }

  /** A configuration that keeps no record kind. */
  function ConfigNone(): (c: GFAParsingConfig)
    ensures !c.segments && !c.links && !c.containments && !c.paths
  {
    GFAParsingConfig(false, false, false, false)
  }

  /** A configuration that keeps every record kind. */
  function ConfigAll(): (c: GFAParsingConfig)
    ensures c.segments && c.links && c.containments && c.paths
  {
    GFAParsingConfig(true, true, true, true)
  }

  /** The empty collection: no version and no records of any kind. */
  function NewGFA(): (g: GFA)
    ensures g.version.None?
    ensures g.segments == [] && g.links == [] && g.containments == [] && g.paths == []
  {
    GFA(None, [], [], [], [])
  }

  // ---------------------------------------------------------------------
  // Paths
  // ---------------------------------------------------------------------

  /** The token of a step: its segment name followed by its orientation symbol. */
  function StepText(step: PathStep): string {
    step.0 + OrientationText(step.1)
  }

  /** A segment-list token: non-empty, its last character an orientation symbol. */
  predicate IsPathToken(t: string) {
    |t| >= 1 && ParseOrientation(t[|t| - 1..]).Ok?
  }

  /** A token is accepted exactly when it is non-empty and ends in '+' or '-'. */
  lemma PathTokenShape(t: string)
    ensures IsPathToken(t) <==> |t| >= 1 && (t[|t| - 1] == '+' || t[|t| - 1] == '-')
  {
  }

  /**
   * Splits a token at its last character: the rest is the segment name,
   * the last character the orientation.
   */
  function SplitToken(t: string): (step: PathStep)
    requires IsPathToken(t)
    ensures StepText(step) == t
    ensures |step.0| == |t| - 1
  {
    var name := t[..|t| - 1];
    var orientation := ParseOrientation(t[|t| - 1..]).value;
    assert name + t[|t| - 1..] == t;
    (name, orientation)
  }

  /**
   * A path with the given name and overlaps (stored as given, with no check
   * against the number of segments), one step per token in token order,
   * and no optional fields.
   */
  function NewPath(pathName: string, segNames: seq<string>, overlaps: seq<string>): (p: Path)
    requires forall k :: 0 <= k < |segNames| ==> IsPathToken(segNames[k])
    ensures p.pathName == pathName && p.overlaps == overlaps && p.optionalFields == []
    ensures |p.segmentNames| == |segNames|
    ensures forall k :: 0 <= k < |segNames| ==>
              StepText(p.segmentNames[k]) == segNames[k] && |p.segmentNames[k].0| == |segNames[k]| - 1
  {
    var steps := seq(|segNames|, k requires 0 <= k < |segNames| => SplitToken(segNames[k]));
    Path(pathName, steps, overlaps, [])
  }

  /** Splitting a step's own token gives the step back. */
  lemma SplitStepText(step: PathStep)
    ensures IsPathToken(StepText(step)) && SplitToken(StepText(step)) == step
  {
  }

  /**
   * Building a path from the tokens of any steps gives back exactly those
   * steps; so the segment list is determined by the tokens, and the tokens
   * by the segment list.
   */
  lemma PathRoundTrip(pathName: string, steps: seq<PathStep>, overlaps: seq<string>)
    ensures var tokens := seq(|steps|, k requires 0 <= k < |steps| => StepText(steps[k]));
      && (forall k :: 0 <= k < |tokens| ==> IsPathToken(tokens[k]))
      && NewPath(pathName, tokens, overlaps).segmentNames == steps
  {
  }

  /** The path `path1` with tokens `1+ 2- 13- 60+` and overlaps `8M 10M 0M 2M`. */
  lemma CreatePathExample()
    ensures
      && (forall k :: 0 <= k < 4 ==> IsPathToken(["1+", "2-", "13-", "60+"][k]))
      && NewPath("path1", ["1+", "2-", "13-", "60+"], ["8M", "10M", "0M", "2M"])
         == Path("path1", [("1", Forward), ("2", Backward), ("13", Backward), ("60", Forward)], ["8M", "10M", "0M", "2M"], [])
  {
    var steps := [("1", Forward), ("2", Backward), ("13", Backward), ("60", Forward)];
    PathRoundTrip("path1", steps, ["8M", "10M", "0M", "2M"]);
    var tokens := seq(|steps|, k requires 0 <= k < |steps| => StepText(steps[k]));
    assert tokens[0] == "1+" && tokens[1] == "2-" && tokens[2] == "13-" && tokens[3] == "60+";
    assert tokens == ["1+", "2-", "13-", "60+"];
  }
}
