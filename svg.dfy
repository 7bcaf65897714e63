/**
 * `svg_t` of src/svg.c: an append-only text buffer that collects the markup of an SVG
 * picture, with the canvas size it was created for and a `finalized` flag.  Each element
 * function is a fixed sequence of appends; the model proves that sequence produces the
 * element described attribute by attribute (`EmptyElement`, `TextElement`), and that
 * the `%d` rendering of numbers is the decimal notation that reads back to the number.
 */
module Svgs {
  import opened Wrappers

  /** The C `int` every size, coordinate and width in src/svg.c has. */
  newtype int32 = x: int | -0x8000_0000 <= x < 0x8000_0000

  /* ---------------------------------------------------------------------------------- */
  /* Decimal numbers, as `sprintf(sn, "%d", n)` writes them                              */
  /* ---------------------------------------------------------------------------------- */

  predicate IsDigit(c: char) {
    '0' <= c <= '9'
  }

  function DigitChar(d: nat): (c: char)
    requires d < 10
    ensures IsDigit(c)
  {
    (('0' as int) + d) as char
  }

  function DigitValue(c: char): (d: nat)
    requires IsDigit(c)
    ensures d < 10
  {
    c as int - '0' as int
  }

  /** The digits of `n`, most significant first, without leading zeros. */
  function NatDigits(n: nat): (d: string)
    ensures |d| >= 1 && IsDigit(d[0])
    decreases n
  {
    if n < 10 then [DigitChar(n)] else NatDigits(n / 10) + [DigitChar(n % 10)]
  }

  /** `%d`: an optional minus sign followed by the digits of the magnitude. */
  function Decimal(n: int): (d: string)
    ensures |d| >= 1 && (d[0] == '-' <==> n < 0)
    ensures n < 0 ==> |d| >= 2 && IsDigit(d[1])
  {
    if n < 0 then "-" + NatDigits(-n) else NatDigits(n)
  }

  lemma {:induction false} NatDigitsShape(n: nat)
    ensures |NatDigits(n)| >= 1 && forall i | 0 <= i < |NatDigits(n)| :: IsDigit(NatDigits(n)[i])
    ensures NatDigits(n)[0] == '0' ==> n == 0 && NatDigits(n) == "0"
    decreases n
  {
    if n >= 10 {
      NatDigitsShape(n / 10);
      assert NatDigits(n)[0] == NatDigits(n / 10)[0];
    }
  }

  /**
   * The rendering is a minus sign exactly for a negative number, then digits with no
   * leading zero.  It holds no quote, so a number never ends an attribute value early.
   */
  lemma DecimalShape(n: int)
    ensures |Decimal(n)| >= 1
    ensures forall i | 0 <= i < |Decimal(n)| :: IsDigit(Decimal(n)[i]) || (i == 0 && Decimal(n)[i] == '-')
    ensures Decimal(n)[0] == '-' <==> n < 0
    ensures n != 0 ==> Decimal(n)[if n < 0 then 1 else 0] != '0'
  {
    if n < 0 {
      NatDigitsShape(-n);
      assert Decimal(n)[1..] == NatDigits(-n);
    } else {
      NatDigitsShape(n);
    }
  }

  /** The number a run of digits denotes. */
  function DigitsValue(s: string): nat
    requires forall i | 0 <= i < |s| :: IsDigit(s[i])
  {
    if |s| == 0 then 0 else 10 * DigitsValue(s[..|s| - 1]) + DigitValue(s[|s| - 1])
  }

  /** Reads a decimal integer back: an optional `-` and at least one digit, nothing else. */
  function ParseDecimal(s: string): Option<int> {
    if |s| > 0 && s[0] == '-' then
      (if |s| > 1 && forall i | 1 <= i < |s| :: IsDigit(s[i]) then Some(-(DigitsValue(s[1..]) as int)) else None)
    else if |s| > 0 && forall i | 0 <= i < |s| :: IsDigit(s[i]) then Some(DigitsValue(s))
    else None
  }

  lemma {:induction false} NatDigitsValue(n: nat)
    ensures forall i | 0 <= i < |NatDigits(n)| :: IsDigit(NatDigits(n)[i])
    ensures DigitsValue(NatDigits(n)) == n
    decreases n
  {
    NatDigitsShape(n);
    if n >= 10 {
      var s := NatDigits(n);
      assert s[..|s| - 1] == NatDigits(n / 10);
      NatDigitsValue(n / 10);
    }
  }

  /** Rendering a number with `%d` and reading it back gives the number. */
  lemma DecimalRoundTrip(n: int)
    ensures ParseDecimal(Decimal(n)) == Some(n)
  {
    DecimalShape(n);
    if n < 0 {
      assert Decimal(n)[1..] == NatDigits(-n);
      NatDigitsValue(-n);
    } else {
      NatDigitsValue(n);
    }
  }

  /** Different numbers are rendered differently. */
  lemma DecimalInjective(a: int, b: int)
    ensures Decimal(a) == Decimal(b) ==> a == b
  {
    DecimalRoundTrip(a);
    DecimalRoundTrip(b);
  }

  function Pow10(k: nat): nat {
    if k == 0 then 1 else 10 * Pow10(k - 1)
  }

  lemma {:induction false} NatDigitsLength(n: nat, k: nat)
    requires k >= 1 && n < Pow10(k)
    ensures |NatDigits(n)| <= k
    decreases n
  {
    if n >= 10 {
      assert k >= 2;
      NatDigitsLength(n / 10, k - 1);
    }
  }

  /**
   * The rendering of any C `int` takes at most 11 characters, so it fits, with its NUL,
   * in the 16-character buffer `appendnumbertosvg` formats it into.
   */
  lemma DecimalFitsBuffer(n: int32)
    ensures |Decimal(n as int)| + 1 <= 16
  {
    assert Pow10(10) == 10_000_000_000;
    if n < 0 {
      NatDigitsLength(-(n as int), 10);
    } else {
      NatDigitsLength(n as int, 10);
    }
  }

  /* ---------------------------------------------------------------------------------- */
  /* Markup                                                                              */
  /* ---------------------------------------------------------------------------------- */

  /** One attribute `name='value'`. */
  datatype Attribute = Attribute(name: string, value: string)

  /** An attribute as it is written: a blank, the name, and the value between single quotes, unescaped. */
  function Rendered(a: Attribute): string {
    " " + a.name + "='" + a.value + "'"
  }

  /** A list of attributes, written one after the other in order. */
  function Attributes(attrs: seq<Attribute>): string {
    if |attrs| == 0 then "" else Attributes(attrs[..|attrs| - 1]) + Rendered(attrs[|attrs| - 1])
  }

  /** An element without content, indented by two blanks, on a line of its own. */
  function EmptyElement(name: string, attrs: seq<Attribute>): string {
    "  <" + name + Attributes(attrs) + "/>\n"
  }

  /** Text is centred on its position, both ways: fixed attributes, as one piece of text. */
  const Centred := " text-anchor='middle' dominant-baseline='middle'"

  /** A centred `text` element whose content is `text`, inserted as it is. */
  function TextElement(attrs: seq<Attribute>, text: string): string {
    "  <text" + Attributes(attrs) + Centred + ">" + text + "</text>\n"
  }

  /** A length in pixels. */
  function Px(n: int32): string {
    Decimal(n as int) + "px"
  }

  /** The fixed namespace and version attributes of the `svg` tag, as one piece of text. */
  const Namespaces := " xmlns='http://www.w3.org/2000/svg' version='1.1' xmlns:xlink='http://www.w3.org/1999/xlink'"

  function HeaderAttributes(width: int32, height: int32): seq<Attribute> {
    [Attribute("width", Px(width)), Attribute("height", Px(height))]
  }

  /** The opening `svg` tag, on a line of its own. */
  function Header(width: int32, height: int32): string {
    "<svg" + Attributes(HeaderAttributes(width, height)) + Namespaces + ">\n"
  }

  const Closing := "</svg>"

  function RectangleAttributes(width: int32, height: int32, x: int32, y: int32, fill: string,
                               stroke: string, strokeWidth: int32, rx: int32, ry: int32): seq<Attribute>
  {
    [Attribute("fill", fill), Attribute("stroke", stroke), Attribute("stroke-width", Px(strokeWidth)),
     Attribute("width", Decimal(width as int)), Attribute("height", Decimal(height as int)),
     Attribute("y", Decimal(y as int)), Attribute("x", Decimal(x as int)),
     Attribute("ry", Decimal(ry as int)), Attribute("rx", Decimal(rx as int))]
  }

  function LineAttributes(stroke: string, strokeWidth: int32, x1: int32, y1: int32, x2: int32, y2: int32): seq<Attribute> {
    [Attribute("stroke", stroke), Attribute("stroke-width", Px(strokeWidth)),
     Attribute("y2", Decimal(y2 as int)), Attribute("x2", Decimal(x2 as int)),
     Attribute("y1", Decimal(y1 as int)), Attribute("x1", Decimal(x1 as int))]
  }

  function TextAttributes(x: int32, y: int32, fontFamily: string, fontSize: int32,
                          fill: string, stroke: string): seq<Attribute>
  {
    [Attribute("x", Decimal(x as int)), Attribute("y", Decimal(y as int)),
     Attribute("font-family", fontFamily), Attribute("stroke", stroke), Attribute("fill", fill),
     Attribute("font-size", Px(fontSize))]
  }

  function CircleAttributes(stroke: string, strokeWidth: int32, fill: string, r: int32, cx: int32, cy: int32): seq<Attribute> {
    [Attribute("stroke", stroke), Attribute("stroke-width", Px(strokeWidth)), Attribute("fill", fill),
     Attribute("r", Decimal(r as int)), Attribute("cy", Decimal(cy as int)), Attribute("cx", Decimal(cx as int))]
  }

  /** Unlike the other elements, the ellipse's stroke width carries no unit. */
  function EllipseAttributes(cx: int32, cy: int32, rx: int32, ry: int32, fill: string,
                             stroke: string, strokeWidth: int32): seq<Attribute>
  {
    [Attribute("cx", Decimal(cx as int)), Attribute("cy", Decimal(cy as int)),
     Attribute("rx", Decimal(rx as int)), Attribute("ry", Decimal(ry as int)),
     Attribute("fill", fill), Attribute("stroke", stroke), Attribute("stroke-width", Decimal(strokeWidth as int))]
  }

  /* ---------------------------------------------------------------------------------- */
  /* How the appends of a fixed chunk and a value add up to attributes                  */
  /* ---------------------------------------------------------------------------------- */

  lemma Assoc(a: string, b: string, c: string)
    ensures a + b + c == a + (b + c)
  {
  }

  /**
   * The element functions append a fixed chunk that closes the previous attribute's
   * quote (`pending`) and opens the next one, then the value or its leading part `v`.
   * If the text so far, with the pending quote, is `w` followed by the first `k`
   * attributes, then after the chunk and `v`, with the new pending part `rest`, it is
   * `w` followed by the first `k + 1`.
   */
  lemma Step(w: string, attrs: seq<Attribute>, k: nat, buf: string, pending: string,
             chunk: string, v: string, rest: string)
    requires k < |attrs|
    requires buf + pending == w + Attributes(attrs[..k])
    requires chunk == pending + " " + attrs[k].name + "='"
    requires attrs[k].value + "'" == v + rest
    ensures buf + chunk + v + rest == w + Attributes(attrs[..k + 1])
  {
    var x := " " + attrs[k].name + "='";
    var base := w + Attributes(attrs[..k]);
    assert attrs[..k + 1][..k] == attrs[..k];
    calc {
      buf + chunk + v + rest;
      { Assoc(buf, pending, x); }
      base + x + v + rest;
      { Assoc(base + x, v, rest); }
      base + x + (attrs[k].value + "'");
      { Assoc(base, x, attrs[k].value + "'"); Assoc(x, attrs[k].value, "'"); }
      base + Rendered(attrs[k]);
      { Assoc(w, Attributes(attrs[..k]), Rendered(attrs[k])); }
      w + Attributes(attrs[..k + 1]);
    }
  }

  /** The last chunk pays the pending quote and closes the tag. */
  lemma Close(w: string, attrs: seq<Attribute>, buf: string, pending: string, chunk: string, close: string)
    requires buf + pending == w + Attributes(attrs[..|attrs|])
    requires chunk == pending + close
    ensures buf + chunk == w + Attributes(attrs) + close
  {
    assert attrs[..|attrs|] == attrs;
    Assoc(buf, pending, close);
  }

  /** The element written after `before`, from its opening through its closing chunk. */
  lemma Appended(before: string, name: string, attrs: seq<Attribute>)
    ensures before + ("  <" + name) + Attributes(attrs) + "/>\n" == before + EmptyElement(name, attrs)
  {
    var open := "  <" + name;
    Assoc(before, open, Attributes(attrs));
    Assoc(before, open + Attributes(attrs), "/>\n");
  }

  lemma TextAppended(before: string, attrs: seq<Attribute>, text: string)
    ensures before + "  <text" + Attributes(attrs) + (Centred + ">") + text + "</text>\n" == before + TextElement(attrs, text)
  {
    var s1 := "  <text" + Attributes(attrs);
    Assoc(before, "  <text", Attributes(attrs));
    Assoc(before, s1, Centred + ">");
    Assoc(s1, Centred, ">");
    Assoc(before, s1 + Centred + ">", text);
    Assoc(before, s1 + Centred + ">" + text, "</text>\n");
  }

  /* The fixed chunks of each element function, split at attribute boundaries. */

  lemma RectangleChunks()
    ensures "  <rect fill='" == ("  <" + "rect") + " " + "fill" + "='"
    ensures "' stroke='" == "'" + " " + "stroke" + "='"
    ensures "' stroke-width='" == "'" + " " + "stroke-width" + "='"
    ensures "px' width='" == "px'" + " " + "width" + "='"
    ensures "' height='" == "'" + " " + "height" + "='"
    ensures "' y='" == "'" + " " + "y" + "='"
    ensures "' x='" == "'" + " " + "x" + "='"
    ensures "' ry='" == "'" + " " + "ry" + "='"
    ensures "' rx='" == "'" + " " + "rx" + "='"
    ensures "'/>\n" == "'" + "/>\n"
  {
  }

  lemma LineChunks()
    ensures "  <line stroke='" == ("  <" + "line") + " " + "stroke" + "='"
    ensures "' stroke-width='" == "'" + " " + "stroke-width" + "='"
    ensures "px' y2='" == "px'" + " " + "y2" + "='"
    ensures "' x2='" == "'" + " " + "x2" + "='"
    ensures "' y1='" == "'" + " " + "y1" + "='"
    ensures "' x1='" == "'" + " " + "x1" + "='"
    ensures "'/>\n" == "'" + "/>\n"
  {
  }

  lemma TextChunks()
    ensures "  <text x='" == "  <text" + " " + "x" + "='"
    ensures "' y='" == "'" + " " + "y" + "='"
    ensures "' font-family='" == "'" + " " + "font-family" + "='"
    ensures "' stroke='" == "'" + " " + "stroke" + "='"
    ensures "' fill='" == "'" + " " + "fill" + "='"
    ensures "' font-size='" == "'" + " " + "font-size" + "='"
    ensures "px" + "'" == "px'"
  {
  }

  lemma CircleChunks()
    ensures "  <circle stroke='" == ("  <" + "circle") + " " + "stroke" + "='"
    ensures "' stroke-width='" == "'" + " " + "stroke-width" + "='"
    ensures "px' fill='" == "px'" + " " + "fill" + "='"
    ensures "' r='" == "'" + " " + "r" + "='"
    ensures "' cy='" == "'" + " " + "cy" + "='"
    ensures "' cx='" == "'" + " " + "cx" + "='"
    ensures "'/>\n" == "'" + "/>\n"
  {
  }

  lemma EllipseChunks()
    ensures "  <ellipse cx='" == ("  <" + "ellipse") + " " + "cx" + "='"
    ensures "' cy='" == "'" + " " + "cy" + "='"
    ensures "' rx='" == "'" + " " + "rx" + "='"
    ensures "' ry='" == "'" + " " + "ry" + "='"
    ensures "' fill='" == "'" + " " + "fill" + "='"
    ensures "' stroke='" == "'" + " " + "stroke" + "='"
    ensures "' stroke-width='" == "'" + " " + "stroke-width" + "='"
    ensures "'/>\n" == "'" + "/>\n"
  {
  }

  /** The first five attributes of `svg_rectangle`, up to the quote that closes the height. */
  lemma RectangleOpening(before: string, width: int32, height: int32, x: int32, y: int32, fill: string, stroke: string, strokeWidth: int32, rx: int32, ry: int32)
    ensures before + "  <rect fill='" + fill + "' stroke='" + stroke + "' stroke-width='"
            + Decimal(strokeWidth as int) + "px' width='" + Decimal(width as int)
            + "' height='" + Decimal(height as int) + "'"
            == before + ("  <" + "rect") + Attributes(RectangleAttributes(width, height, x, y, fill, stroke, strokeWidth, rx, ry)[..5])
  {
    var a := RectangleAttributes(width, height, x, y, fill, stroke, strokeWidth, rx, ry);
    var w := before + ("  <" + "rect");
    RectangleChunks();
    var b := before;
    Step(w, a, 0, b, "  <" + "rect", "  <rect fill='", fill, "'");
    b := b + "  <rect fill='" + fill;
    Step(w, a, 1, b, "'", "' stroke='", stroke, "'");
    b := b + "' stroke='" + stroke;
    Step(w, a, 2, b, "'", "' stroke-width='", Decimal(strokeWidth as int), "px'");
    b := b + "' stroke-width='" + Decimal(strokeWidth as int);
    Step(w, a, 3, b, "px'", "px' width='", Decimal(width as int), "'");
    b := b + "px' width='" + Decimal(width as int);
    Step(w, a, 4, b, "'", "' height='", Decimal(height as int), "'");
  }

  /** The appends of `svg_rectangle`, in the source's order, write the element `rect` with `RectangleAttributes`. */
  lemma RectangleMarkup(before: string, width: int32, height: int32, x: int32, y: int32, fill: string, stroke: string, strokeWidth: int32, rx: int32, ry: int32)
    ensures before + "  <rect fill='" + fill + "' stroke='" + stroke + "' stroke-width='"
            + Decimal(strokeWidth as int) + "px' width='" + Decimal(width as int)
            + "' height='" + Decimal(height as int) + "' y='" + Decimal(y as int) + "' x='"
            + Decimal(x as int) + "' ry='" + Decimal(ry as int) + "' rx='" + Decimal(rx as int)
            + "'/>\n"
            == before + EmptyElement("rect", RectangleAttributes(width, height, x, y, fill, stroke, strokeWidth, rx, ry))
  {
    var a := RectangleAttributes(width, height, x, y, fill, stroke, strokeWidth, rx, ry);
    var w := before + ("  <" + "rect");
    RectangleOpening(before, width, height, x, y, fill, stroke, strokeWidth, rx, ry);
    RectangleChunks();
    var b := before + "  <rect fill='" + fill + "' stroke='" + stroke + "' stroke-width='"
             + Decimal(strokeWidth as int) + "px' width='" + Decimal(width as int)
             + "' height='" + Decimal(height as int);
    Step(w, a, 5, b, "'", "' y='", Decimal(y as int), "'");
    b := b + "' y='" + Decimal(y as int);
    Step(w, a, 6, b, "'", "' x='", Decimal(x as int), "'");
    b := b + "' x='" + Decimal(x as int);
    Step(w, a, 7, b, "'", "' ry='", Decimal(ry as int), "'");
    b := b + "' ry='" + Decimal(ry as int);
    Step(w, a, 8, b, "'", "' rx='", Decimal(rx as int), "'");
    b := b + "' rx='" + Decimal(rx as int);
    Close(w, a, b, "'", "'/>\n", "/>\n");
    Appended(before, "rect", a);
  }

  /** The appends of `svg_line`, in the source's order, write the element `line` with `LineAttributes`. */
  lemma LineMarkup(before: string, stroke: string, strokeWidth: int32, x1: int32, y1: int32, x2: int32, y2: int32)
    ensures before + "  <line stroke='" + stroke + "' stroke-width='"
            + Decimal(strokeWidth as int) + "px' y2='" + Decimal(y2 as int) + "' x2='"
            + Decimal(x2 as int) + "' y1='" + Decimal(y1 as int) + "' x1='"
            + Decimal(x1 as int) + "'/>\n"
            == before + EmptyElement("line", LineAttributes(stroke, strokeWidth, x1, y1, x2, y2))
  {
    var a := LineAttributes(stroke, strokeWidth, x1, y1, x2, y2);
    var w := before + ("  <" + "line");
    LineChunks();
    var b := before;
    Step(w, a, 0, b, "  <" + "line", "  <line stroke='", stroke, "'");
    b := b + "  <line stroke='" + stroke;
    Step(w, a, 1, b, "'", "' stroke-width='", Decimal(strokeWidth as int), "px'");
    b := b + "' stroke-width='" + Decimal(strokeWidth as int);
    Step(w, a, 2, b, "px'", "px' y2='", Decimal(y2 as int), "'");
    b := b + "px' y2='" + Decimal(y2 as int);
    Step(w, a, 3, b, "'", "' x2='", Decimal(x2 as int), "'");
    b := b + "' x2='" + Decimal(x2 as int);
    Step(w, a, 4, b, "'", "' y1='", Decimal(y1 as int), "'");
    b := b + "' y1='" + Decimal(y1 as int);
    Step(w, a, 5, b, "'", "' x1='", Decimal(x1 as int), "'");
    b := b + "' x1='" + Decimal(x1 as int);
    Close(w, a, b, "'", "'/>\n", "/>\n");
    Appended(before, "line", a);
  }

  /** The appends of `svg_circle`, in the source's order, write the element `circle` with `CircleAttributes`. */
  lemma CircleMarkup(before: string, stroke: string, strokeWidth: int32, fill: string, r: int32, cx: int32, cy: int32)
    ensures before + "  <circle stroke='" + stroke + "' stroke-width='"
            + Decimal(strokeWidth as int) + "px' fill='" + fill + "' r='" + Decimal(r as int)
            + "' cy='" + Decimal(cy as int) + "' cx='" + Decimal(cx as int) + "'/>\n"
            == before + EmptyElement("circle", CircleAttributes(stroke, strokeWidth, fill, r, cx, cy))
  {
    var a := CircleAttributes(stroke, strokeWidth, fill, r, cx, cy);
    var w := before + ("  <" + "circle");
    CircleChunks();
    var b := before;
    Step(w, a, 0, b, "  <" + "circle", "  <circle stroke='", stroke, "'");
    b := b + "  <circle stroke='" + stroke;
    Step(w, a, 1, b, "'", "' stroke-width='", Decimal(strokeWidth as int), "px'");
    b := b + "' stroke-width='" + Decimal(strokeWidth as int);
    Step(w, a, 2, b, "px'", "px' fill='", fill, "'");
    b := b + "px' fill='" + fill;
    Step(w, a, 3, b, "'", "' r='", Decimal(r as int), "'");
    b := b + "' r='" + Decimal(r as int);
    Step(w, a, 4, b, "'", "' cy='", Decimal(cy as int), "'");
    b := b + "' cy='" + Decimal(cy as int);
    Step(w, a, 5, b, "'", "' cx='", Decimal(cx as int), "'");
    b := b + "' cx='" + Decimal(cx as int);
    Close(w, a, b, "'", "'/>\n", "/>\n");
    Appended(before, "circle", a);
  }

  /** The appends of `svg_ellipse`, in the source's order, write the element `ellipse` with `EllipseAttributes`. */
  lemma EllipseMarkup(before: string, cx: int32, cy: int32, rx: int32, ry: int32, fill: string, stroke: string, strokeWidth: int32)
    ensures before + "  <ellipse cx='" + Decimal(cx as int) + "' cy='" + Decimal(cy as int)
            + "' rx='" + Decimal(rx as int) + "' ry='" + Decimal(ry as int) + "' fill='" + fill
            + "' stroke='" + stroke + "' stroke-width='" + Decimal(strokeWidth as int)
            + "'/>\n"
            == before + EmptyElement("ellipse", EllipseAttributes(cx, cy, rx, ry, fill, stroke, strokeWidth))
  {
    var a := EllipseAttributes(cx, cy, rx, ry, fill, stroke, strokeWidth);
    var w := before + ("  <" + "ellipse");
    EllipseChunks();
    var b := before;
    Step(w, a, 0, b, "  <" + "ellipse", "  <ellipse cx='", Decimal(cx as int), "'");
    b := b + "  <ellipse cx='" + Decimal(cx as int);
    Step(w, a, 1, b, "'", "' cy='", Decimal(cy as int), "'");
    b := b + "' cy='" + Decimal(cy as int);
    Step(w, a, 2, b, "'", "' rx='", Decimal(rx as int), "'");
    b := b + "' rx='" + Decimal(rx as int);
    Step(w, a, 3, b, "'", "' ry='", Decimal(ry as int), "'");
    b := b + "' ry='" + Decimal(ry as int);
    Step(w, a, 4, b, "'", "' fill='", fill, "'");
    b := b + "' fill='" + fill;
    Step(w, a, 5, b, "'", "' stroke='", stroke, "'");
    b := b + "' stroke='" + stroke;
    Step(w, a, 6, b, "'", "' stroke-width='", Decimal(strokeWidth as int), "'");
    b := b + "' stroke-width='" + Decimal(strokeWidth as int);
    Close(w, a, b, "'", "'/>\n", "/>\n");
    Appended(before, "ellipse", a);
  }

  /** The appends of `svg_create` write the opening `svg` tag. */
  lemma HeaderMarkup(before: string, width: int32, height: int32)
    ensures before + "<svg width='" + Decimal(width as int) + "px' height='" + Decimal(height as int)
            + ("px'" + Namespaces + ">\n")
            == before + Header(width, height)
  {
    var a := HeaderAttributes(width, height);
    var w := before + "<svg";
    assert "<svg width='" == "<svg" + " " + "width" + "='";
    assert "px' height='" == "px'" + " " + "height" + "='";
    var b := before;
    Step(w, a, 0, b, "<svg", "<svg width='", Decimal(width as int), "px'");
    b := b + "<svg width='" + Decimal(width as int);
    Step(w, a, 1, b, "px'", "px' height='", Decimal(height as int), "px'");
    b := b + "px' height='" + Decimal(height as int);
    Close(w, a, b, "px'", "px'" + Namespaces + ">\n", Namespaces + ">\n");
    Assoc(before, "<svg", Attributes(a));
    Assoc(before, "<svg" + Attributes(a), Namespaces + ">\n");
    Assoc("<svg" + Attributes(a), Namespaces, ">\n");
  }

  /** The appends of `svg_text` write a `text` element holding `text`. */
  lemma TextMarkup(before: string, x: int32, y: int32, fontFamily: string, fontSize: int32,
                   fill: string, stroke: string, text: string)
    ensures before + "  <text x='" + Decimal(x as int) + "' y='" + Decimal(y as int)
            + "' font-family='" + fontFamily + "' stroke='" + stroke + "' fill='" + fill
            + "' font-size='" + Decimal(fontSize as int) + "px"
            + ("'" + Centred + ">") + text + "</text>\n"
            == before + TextElement(TextAttributes(x, y, fontFamily, fontSize, fill, stroke), text)
  {
    var p := TextAttributes(x, y, fontFamily, fontSize, fill, stroke);
    var w := before + "  <text";
    TextChunks();
    var b := before;
    Step(w, p, 0, b, "  <text", "  <text x='", Decimal(x as int), "'");
    b := b + "  <text x='" + Decimal(x as int);
    Step(w, p, 1, b, "'", "' y='", Decimal(y as int), "'");
    b := b + "' y='" + Decimal(y as int);
    Step(w, p, 2, b, "'", "' font-family='", fontFamily, "'");
    b := b + "' font-family='" + fontFamily;
    Step(w, p, 3, b, "'", "' stroke='", stroke, "'");
    b := b + "' stroke='" + stroke;
    Step(w, p, 4, b, "'", "' fill='", fill, "'");
    b := b + "' fill='" + fill;
    Step(w, p, 5, b, "'", "' font-size='", Decimal(fontSize as int), "px'");
    b := b + "' font-size='" + Decimal(fontSize as int);
    Assoc(b, "px", "'");
    b := b + "px";
    Close(w, p, b, "'", "'" + Centred + ">", Centred + ">");
    TextAppended(before, p, text);
  }

  class Svg {
    var buffer: string
    var width: int32
    var height: int32
    var finalized: bool
    /** The opening tag `svg_create` wrote for the canvas size. */
    ghost const header: string

    /** The buffer always opens with the header. */
    ghost predicate Valid()
      reads this
    {
      |header| <= |buffer| && buffer[..|header|] == header
    }

    /** `appendstringtosvg`: `text` goes on the end of the buffer. */
    method AppendString(text: string)
      modifies this`buffer
      ensures buffer == old(buffer) + text
    {
      buffer := buffer + text;
    }

    /** `appendnumbertosvg`: the `%d` rendering of `n` goes on the end of the buffer. */
    method AppendNumber(n: int32)
      modifies this`buffer
      ensures buffer == old(buffer) + Decimal(n as int)
    {
      DecimalFitsBuffer(n);
      AppendString(Decimal(n as int));
    }

    /** `svg_create`: the canvas size is kept, and the buffer is the header alone. */
    constructor (width: int32, height: int32)
      ensures Valid() && !finalized
      ensures this.width == width && this.height == height
      ensures header == Header(width, height) && buffer == header
    {
      this.finalized := false;
      this.width := width;
      this.height := height;
      this.buffer := "";
      this.header := Header(width, height);
      new;
      AppendString("<svg width='");
      AppendNumber(width);
      AppendString("px' height='");
      AppendNumber(height);
      AppendString("px'" + Namespaces + ">\n");
      HeaderMarkup("", width, height);
      assert "" + Header(width, height) == Header(width, height);
    }

    /** `svg_finalize`: the closing tag goes on the end and the picture is marked finished. */
    method Finalize()
      requires Valid()
      modifies this`buffer, this`finalized
      ensures Valid() && finalized
      ensures buffer == old(buffer) + Closing
    {
      AppendString("</svg>");
      finalized := true;
    }

    /**
     * `svg_save` without the file write: a picture not yet finished is finished first, and
     * one already finished is left as it is, so the closing tag is never written twice.
     */
    method Save()
      requires Valid()
      modifies this`buffer, this`finalized
      ensures Valid() && finalized
      ensures buffer == if old(finalized) then old(buffer) else old(buffer) + Closing
    {
      if !finalized {
        Finalize();
      }
    }

    /** `svg_rectangle`: one `rect` element with its attributes in the source's order. */
    method Rectangle(width: int32, height: int32, x: int32, y: int32, fill: string,
                     stroke: string, strokeWidth: int32, rx: int32, ry: int32)
      requires Valid()
      modifies this`buffer
      ensures Valid()
      ensures buffer == old(buffer) + EmptyElement("rect", RectangleAttributes(width, height, x, y, fill, stroke, strokeWidth, rx, ry))
    {
      AppendString("  <rect fill='");
      AppendString(fill);
      AppendString("' stroke='");
      AppendString(stroke);
      AppendString("' stroke-width='");
      AppendNumber(strokeWidth);
      AppendString("px' width='");
      AppendNumber(width);
      AppendString("' height='");
      AppendNumber(height);
      AppendString("' y='");
      AppendNumber(y);
      AppendString("' x='");
      AppendNumber(x);
      AppendString("' ry='");
      AppendNumber(ry);
      AppendString("' rx='");
      AppendNumber(rx);
      AppendString("'/>\n");
      RectangleMarkup(old(buffer), width, height, x, y, fill, stroke, strokeWidth, rx, ry);
      Grown(old(buffer), EmptyElement("rect", RectangleAttributes(width, height, x, y, fill, stroke, strokeWidth, rx, ry)));
    }

    /**
     * `svg_fill`: a rectangle as large as the canvas at the origin, filled and stroked
     * with `fill`, with no stroke width and square corners.
     */
    method Fill(fill: string)
      requires Valid()
      modifies this`buffer
      ensures Valid()
      ensures buffer == old(buffer) + EmptyElement("rect", RectangleAttributes(width, height, 0, 0, fill, fill, 0, 0, 0))
    {
      Rectangle(width, height, 0, 0, fill, fill, 0, 0, 0);
    }

    /** `svg_line`: one `line` element with its attributes in the source's order. */
    method Line(stroke: string, strokeWidth: int32, x1: int32, y1: int32, x2: int32, y2: int32)
      requires Valid()
      modifies this`buffer
      ensures Valid()
      ensures buffer == old(buffer) + EmptyElement("line", LineAttributes(stroke, strokeWidth, x1, y1, x2, y2))
    {
      AppendString("  <line stroke='");
      AppendString(stroke);
      AppendString("' stroke-width='");
      AppendNumber(strokeWidth);
      AppendString("px' y2='");
      AppendNumber(y2);
      AppendString("' x2='");
      AppendNumber(x2);
      AppendString("' y1='");
      AppendNumber(y1);
      AppendString("' x1='");
      AppendNumber(x1);
      AppendString("'/>\n");
      LineMarkup(old(buffer), stroke, strokeWidth, x1, y1, x2, y2);
      Grown(old(buffer), EmptyElement("line", LineAttributes(stroke, strokeWidth, x1, y1, x2, y2)));
    }

    /** `svg_text`: one `text` element, centred on (x, y), holding `text` unescaped. */
    method Text(x: int32, y: int32, fontFamily: string, fontSize: int32,
                fill: string, stroke: string, text: string)
      requires Valid()
      modifies this`buffer
      ensures Valid()
      ensures buffer == old(buffer) + TextElement(TextAttributes(x, y, fontFamily, fontSize, fill, stroke), text)
    {
      AppendString("  <text x='");
      AppendNumber(x);
      AppendString("' y='");
      AppendNumber(y);
      AppendString("' font-family='");
      AppendString(fontFamily);
      AppendString("' stroke='");
      AppendString(stroke);
      AppendString("' fill='");
      AppendString(fill);
      AppendString("' font-size='");
      AppendNumber(fontSize);
      AppendString("px");
      AppendString("'" + Centred + ">");
      AppendString(text);
      AppendString("</text>\n");
      TextMarkup(old(buffer), x, y, fontFamily, fontSize, fill, stroke, text);
      Grown(old(buffer), TextElement(TextAttributes(x, y, fontFamily, fontSize, fill, stroke), text));
    }

    /** `svg_circle`: one `circle` element with its attributes in the source's order. */
    method Circle(stroke: string, strokeWidth: int32, fill: string, r: int32, cx: int32, cy: int32)
      requires Valid()
      modifies this`buffer
      ensures Valid()
      ensures buffer == old(buffer) + EmptyElement("circle", CircleAttributes(stroke, strokeWidth, fill, r, cx, cy))
    {
      AppendString("  <circle stroke='");
      AppendString(stroke);
      AppendString("' stroke-width='");
      AppendNumber(strokeWidth);
      AppendString("px' fill='");
      AppendString(fill);
      AppendString("' r='");
      AppendNumber(r);
      AppendString("' cy='");
      AppendNumber(cy);
      AppendString("' cx='");
      AppendNumber(cx);
      AppendString("'/>\n");
      CircleMarkup(old(buffer), stroke, strokeWidth, fill, r, cx, cy);
      Grown(old(buffer), EmptyElement("circle", CircleAttributes(stroke, strokeWidth, fill, r, cx, cy)));
    }

    /** `svg_ellipse`: one `ellipse` element with its attributes in the source's order. */
    method Ellipse(cx: int32, cy: int32, rx: int32, ry: int32, fill: string, stroke: string, strokeWidth: int32)
      requires Valid()
      modifies this`buffer
      ensures Valid()
      ensures buffer == old(buffer) + EmptyElement("ellipse", EllipseAttributes(cx, cy, rx, ry, fill, stroke, strokeWidth))
    {
      AppendString("  <ellipse cx='");
      AppendNumber(cx);
      AppendString("' cy='");
      AppendNumber(cy);
      AppendString("' rx='");
      AppendNumber(rx);
      AppendString("' ry='");
      AppendNumber(ry);
      AppendString("' fill='");
      AppendString(fill);
      AppendString("' stroke='");
      AppendString(stroke);
      AppendString("' stroke-width='");
      AppendNumber(strokeWidth);
      AppendString("'/>\n");
      EllipseMarkup(old(buffer), cx, cy, rx, ry, fill, stroke, strokeWidth);
      Grown(old(buffer), EmptyElement("ellipse", EllipseAttributes(cx, cy, rx, ry, fill, stroke, strokeWidth)));
    }

    /** Whatever is appended, the header stays in front. */
    lemma Grown(before: string, x: string)
      requires |header| <= |before| && before[..|header|] == header
      requires buffer == before + x
      ensures Valid()
    {
      assert buffer[..|header|] == before[..|header|];
    }
  }
}
