/** The two strings the batch tools read back from their widgets: a manual
    output size `"<w>x<h>"` (`map(int, s.split('x'))`) and a background colour
    `"#RRGGBB"` (`int(s[i:i+2], 16) for i in (1, 3, 5)`). */
module Parsing {
  import opened Common
  import opened Numerals
  import opened Resolutions
  import opened Geometry

  // ---------------------------------------------------------------- split

  /** Index of the first `c` in `s`, or |s| when there is none. */
  function IndexOf(s: string, c: char): (k: nat)
    ensures k <= |s|
    ensures k < |s| ==> s[k] == c
    ensures forall j :: 0 <= j < k ==> s[j] != c
  {
    if s == [] then 0
    else if s[0] == c then 0
    else 1 + IndexOf(s[1..], c)
  }

  /** `s.split(c)`: the pieces between occurrences of `c`, so there is always
      one piece more than there are separators. */
  function Split(s: string, c: char): (r: seq<string>)
    ensures |r| >= 1
    ensures forall i :: 0 <= i < |r| ==> c !in r[i]
    decreases |s|
  {
    var k := IndexOf(s, c);
    if k == |s| then [s] else [s[..k]] + Split(s[k + 1..], c)
  }

  /** Putting the separators back gives the original string. */
  function JoinWith(parts: seq<string>, c: char): string
    requires |parts| >= 1
  {
    if |parts| == 1 then parts[0] else parts[0] + [c] + JoinWith(parts[1..], c)
  }

  lemma {:induction false} SplitJoin(s: string, c: char)
    ensures JoinWith(Split(s, c), c) == s
    decreases |s|
  {
    var k := IndexOf(s, c);
    if k < |s| {
      var rest := Split(s[k + 1..], c);
      SplitJoin(s[k + 1..], c);
      assert Split(s, c) == [s[..k]] + rest;
      assert JoinWith(Split(s, c), c) == s[..k] + [c] + JoinWith(rest, c);
      assert s == s[..k] + [c] + s[k + 1..];
    }
  }

  /** Splitting `a + [c] + b` where `a` has no `c` gives `a` and then the
      pieces of `b`. */
  lemma SplitAt(a: string, c: char, b: string)
    requires c !in a
    ensures Split(a + [c] + b, c) == [a] + Split(b, c)
  {
    var s := a + [c] + b;
    assert s[|a|] == c;
    assert IndexOf(s, c) == |a| by {
      IndexOfPrefix(a, c, [c] + b);
    }
    assert s[..|a|] == a;
    assert s[|a| + 1..] == b;
  }

  lemma {:induction false} IndexOfPrefix(a: string, c: char, rest: string)
    requires c !in a && rest != [] && rest[0] == c
    ensures IndexOf(a + rest, c) == |a|
  {
    if a != [] {
      assert (a + rest)[1..] == a[1..] + rest;
      IndexOfPrefix(a[1..], c, rest);
    }
  }

  lemma SplitNone(s: string, c: char)
    requires c !in s
    ensures Split(s, c) == [s]
  {
  }

  // ---------------------------------------------------------------- sizes

  /** `w, h = map(int, size.split('x'))` as the manual size branch uses it:
      exactly two pieces, each a decimal numeral; anything else raises. */
  function ParseSize(size: string): (r: Option<Size>)
    ensures r.Some? <==> |Split(size, 'x')| == 2 && ParseDec(Split(size, 'x')[0]).Some? && ParseDec(Split(size, 'x')[1]).Some?
  {
    var parts := Split(size, 'x');
    if |parts| != 2 then None
    else match (ParseDec(parts[0]), ParseDec(parts[1]))
      case (Some(w), Some(h)) => Some(Size(w, h))
      case _ => None
  }

  /** `f"{w}x{h}"` */
  function FormatSize(s: Size): (r: string)
    ensures 'x' in r
  {
    assert (Dec(s.width) + "x" + Dec(s.height))[|Dec(s.width)|] == 'x';
    Dec(s.width) + "x" + Dec(s.height)
  }

  lemma DigitsHaveNoX(s: string)
    requires AllDigits(s)
    ensures 'x' !in s
  {
  }

  /** Reading back a formatted size gives the size. */
  lemma SizeRoundTrip(s: Size)
    ensures ParseSize(FormatSize(s)) == Some(s)
  {
    var a, b := Dec(s.width), Dec(s.height);
    DigitsHaveNoX(a);
    DigitsHaveNoX(b);
    SplitAt(a, 'x', b);
    SplitNone(b, 'x');
    assert a + "x" + b == a + ['x'] + b;
    DecRoundTrip(s.width);
    DecRoundTrip(s.height);
  }

  /** The entries of the output-size dropdown: "AUTO", then every catalogue
      resolution as `"<w>x<h>"`, bucket by bucket. */
  function SizeOptions(): (r: seq<string>)
    ensures |r| == |Candidates()| + 1 && r[0] == "AUTO"
    ensures forall i :: 0 <= i < |Candidates()| ==> r[i + 1] == FormatSize(Candidates()[i])
  {
    ["AUTO"] + seq(|Candidates()|, i requires 0 <= i < |Candidates()| => FormatSize(Candidates()[i]))
  }

  /** Every option other than "AUTO" parses to exactly the resolution it was
      built from, and "AUTO" itself is not a size. */
  lemma SizeOptionsParse()
    ensures ParseSize("AUTO") == None
    ensures forall i :: 1 <= i < |SizeOptions()| ==>
      ParseSize(SizeOptions()[i]) == Some(Candidates()[i - 1]) && SizeOptions()[i] != "AUTO"
  {
    SplitNone("AUTO", 'x');
    assert "AUTO"[0] == 'A';
    forall i | 1 <= i < |SizeOptions()|
      ensures ParseSize(SizeOptions()[i]) == Some(Candidates()[i - 1]) && SizeOptions()[i] != "AUTO"
    {
      SizeRoundTrip(Candidates()[i - 1]);
      assert 'x' !in "AUTO";
    }
  }

  // ---------------------------------------------------------------- colours

  /** Python slicing `s[i:j]` for non-negative bounds: clamped to the
      string. */
  function Slice(s: string, i: nat, j: nat): (r: string)
    ensures |r| <= (if j >= i then j - i else 0)
    ensures i <= j <= |s| ==> r == s[i..j]
  {
    var a := MinI(i, |s|);
    var b := MinI(j, |s|);
    if a <= b then s[a..b] else []
  }

  /** `tuple(int(s[i:i+2], 16) for i in (1, 3, 5))`: None when any of the
      three fields raises. */
  function ParseHexColor(s: string): (r: Option<Rgb>)
    ensures r.Some? <==>
      ParseHexField(Slice(s, 1, 3)).Some? && ParseHexField(Slice(s, 3, 5)).Some? && ParseHexField(Slice(s, 5, 7)).Some?
  {
    match (ParseHexField(Slice(s, 1, 3)), ParseHexField(Slice(s, 3, 5)), ParseHexField(Slice(s, 5, 7)))
    case (Some(r), Some(g), Some(b)) => Some(Rgb(r, g, b))
    case _ => None
  }

  predicate InByteRange(c: Rgb)
  {
    0 <= c.red <= 255 && 0 <= c.green <= 255 && 0 <= c.blue <= 255
  }

  /** A `#` followed by six hex digits gives the three two-digit values, each
      in 0..255. */
  lemma WellFormedColour(s: string)
    requires |s| == 7 && AllHex(s[1..])
    ensures AllHex(s[1..3]) && AllHex(s[3..5]) && AllHex(s[5..7])
    ensures ParseHexColor(s) == Some(Rgb(HexValue(s[1..3]), HexValue(s[3..5]), HexValue(s[5..7])))
    ensures InByteRange(ParseHexColor(s).value)
  {
    assert forall i :: 1 <= i < 7 ==> s[i] == s[1..][i - 1];
    HexPairBound(s[1..3]);
    HexPairBound(s[3..5]);
    HexPairBound(s[5..7]);
  }

  lemma HexPairBound(p: string)
    requires |p| == 2 && AllHex(p)
    ensures HexValue(p) <= 255
  {
    assert p[..1][..0] == [];
    assert HexValue(p[..1]) == HexDigitValue(p[0]);
  }

  /** `#rrggbb` in lower case, as a colour chooser reports a colour. */
  function FormatHexColor(c: Rgb): (r: string)
    requires InByteRange(c)
    ensures |r| == 7 && r[0] == '#' && AllHex(r[1..])
  {
    "#" + Hex2(c.red) + Hex2(c.green) + Hex2(c.blue)
  }

  /** Parsing a formatted colour gives the colour back. */
  lemma ColourRoundTrip(c: Rgb)
    requires InByteRange(c)
    ensures ParseHexColor(FormatHexColor(c)) == Some(c)
  {
    var s := FormatHexColor(c);
    WellFormedColour(s);
    assert s[1..3] == Hex2(c.red);
    assert s[3..5] == Hex2(c.green);
    assert s[5..7] == Hex2(c.blue);
    Hex2RoundTrip(c.red);
    Hex2RoundTrip(c.green);
    Hex2RoundTrip(c.blue);
  }

  /** The field "FF" is 255 and the field "F" is 15. */
  lemma HexFields()
    ensures ParseHexField("FF") == Some(255)
    ensures ParseHexField("F") == Some(15)
  {
    assert AllHex("FF") && AllHex("F");
    assert "FF"[..1] == "F";
    assert "F"[..0] == [];
  }

  /** The default "#FFFFFF" is white. */
  lemma DefaultColourIsWhite()
    ensures ParseHexColor("#FFFFFF") == Some(Rgb(255, 255, 255))
  {
    var s := "#FFFFFF";
    assert Slice(s, 1, 3) == "FF" && Slice(s, 3, 5) == "FF" && Slice(s, 5, 7) == "FF";
    HexFields();
  }

  /** Short or malformed strings are rejected: "#FFF" leaves the last field
      empty. A string without the `#` is read one character off: "FFFFFF"
      gives the fields "FF", "FF" and "F". */
  lemma MalformedColours()
    ensures ParseHexColor("#FFF") == None
    ensures ParseHexColor("FFFFFF") == Some(Rgb(255, 255, 15))
  {
    assert Slice("#FFF", 5, 7) == [];
    var s := "FFFFFF";
    assert Slice(s, 1, 3) == "FF" && Slice(s, 3, 5) == "FF" && Slice(s, 5, 7) == "F";
    HexFields();
  }
}
