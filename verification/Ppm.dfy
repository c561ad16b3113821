/** The PPM printer of the fixture and the PPM reader of the inspector. Bytes are characters below 256. */
module Ppm {
  import opened Prelude

  const HEADER_LIMIT := 4096
  const TOKEN_LIMIT := 32
  const SIDE_LIMIT := 4096

  datatype Image = Image(width: nat, height: nat, rgb: string)

  // ----- Reading tokens -----

  /** Behind the line break that ends a comment. */
  function CommentEnd(text: string, i: nat): (e: Option<nat>)
    requires i <= |text|
    ensures e.Some? ==> i < e.value <= |text|
    decreases |text| - i
  {
    if i == |text| then None else if text[i] == '\n' then Some(i + 1) else CommentEnd(text, i + 1)
  }

  /** White space and comments are skipped within the header limit. */
  function Skip(text: string, i: nat): (e: Option<nat>)
    requires i <= |text|
    ensures e.Some? ==> i <= e.value <= |text|
    decreases |text| - i
  {
    if i == |text| then Some(i)
    else if text[i] == '#' then
      var e := CommentEnd(text, i);
      if e.None? || e.value > HEADER_LIMIT then None else Skip(text, e.value)
    else if IsSpace(text[i]) then (if i + 1 > HEADER_LIMIT then None else Skip(text, i + 1))
    else Some(i)
  }

  function WordEnd(text: string, i: nat): (e: nat)
    requires i <= |text|
    ensures i <= e <= |text|
    decreases |text| - i
  {
    if i == |text| || IsSpace(text[i]) then i else WordEnd(text, i + 1)
  }

  /** The next token and the position behind it. */
  function TokenAt(text: string, i: nat): (t: Option<(string, nat)>)
    requires i <= |text|
    ensures t.Some? ==> i < t.value.1 <= |text|
  {
    var b := Skip(text, i);
    if b.None? then None
    else
      var e := WordEnd(text, b.value);
      if e == b.value || e - b.value > TOKEN_LIMIT || e > HEADER_LIMIT then None else Some((text[b.value..e], e))
  }

  /** The value of a string of digits. */
  function Value(s: string): Option<nat> {
    if s == "" then Some(0)
    else
      var v := Value(s[..|s| - 1]);
      if v.None? || !IsDigit(s[|s| - 1]) then None else Some(v.value * 10 + DigitOf(s[|s| - 1]))
  }

  function Dimension(s: string): Option<nat> {
    var v := Value(s);
    if s != "" && v.Some? && 1 <= v.value <= SIDE_LIMIT then v else None
  }

  /** A whole picture: magic, two dimensions, depth, one white space, and exactly the pixels. */
  function Decode(text: string): Option<Image> {
    var magic := TokenAt(text, 0);
    if magic.None? || magic.value.0 != "P6" then None else
      var w := TokenAt(text, magic.value.1);
      if w.None? || Dimension(w.value.0).None? then None else
        var h := TokenAt(text, w.value.1);
        if h.None? || Dimension(h.value.0).None? then None else
          var depth := TokenAt(text, h.value.1);
          if depth.None? || depth.value.0 != "255" then None else
            DecodePixels(text, depth.value.1, Dimension(w.value.0).value, Dimension(h.value.0).value)
  }

  function DecodePixels(text: string, i: nat, width: nat, height: nat): Option<Image>
    requires i <= |text|
  {
    if i == |text| || !IsSpace(text[i]) || |text| - (i + 1) != width * height * 3 then None
    else Some(Image(width, height, text[i + 1..]))
  }

  /** Reads one token; `i` is the stream position and at the same time the number of header bytes taken. */
  method ReadToken(text: string, start: nat) returns (token: Option<string>, i: nat)
    requires start <= |text|
    ensures (token.None? <==> TokenAt(text, start).None?) && i <= |text|
    ensures token.Some? ==> TokenAt(text, start) == Some((token.value, i))
  {
    i := start;
    while i < |text| && (text[i] == '#' || IsSpace(text[i]))
      invariant start <= i <= |text| && Skip(text, i) == Skip(text, start)
      decreases |text| - i
    {
      if text[i] == '#' {
        ghost var hash := i;
        while i < |text| && text[i] != '\n'
          invariant hash <= i <= |text| && CommentEnd(text, i) == CommentEnd(text, hash)
        {
          if i + 1 > HEADER_LIMIT { CommentBehind(text, i); return None, i; }
          i := i + 1;
        }
        if i == |text| { return None, i; }
      }
      if i + 1 > HEADER_LIMIT { return None, i; }
      i := i + 1;
    }
    var begin := i;
    while i < |text| && !IsSpace(text[i])
      invariant begin <= i <= |text| && WordEnd(text, i) == WordEnd(text, begin) && Skip(text, start) == Some(begin)
      invariant i - begin <= TOKEN_LIMIT && (i > begin ==> i <= HEADER_LIMIT)
    {
      if i - begin >= TOKEN_LIMIT || i + 1 > HEADER_LIMIT { WordBehind(text, i); return None, i; }
      i := i + 1;
    }
    if i == begin { return None, i; }
    return Some(text[begin..i]), i;
  }

  lemma {:induction false} CommentBehind(text: string, i: nat)
    requires i <= |text|
    ensures CommentEnd(text, i).Some? ==> CommentEnd(text, i).value > i
  {
  }

  lemma {:induction false} WordBehind(text: string, i: nat)
    requires i < |text| && !IsSpace(text[i])
    ensures WordEnd(text, i) > i
  {
  }

  method ReadDimension(s: string) returns (r: Option<nat>)
    ensures r == Dimension(s)
  {
    var result := 0;
    for i := 0 to |s|
      invariant Value(s[..i]) == Some(result) && result <= 0xffff_ffff
    {
      assert s[..i + 1][..i] == s[..i];
      if !IsDigit(s[i]) { ValueFails(s, i + 1); return None; }
      result := result * 10 + DigitOf(s[i]);
      // A value that does not fit 32 bits is refused, and so is every longer number.
      if result > 0xffff_ffff { ValueGrows(s, i + 1); return None; }
    }
    assert s[..|s|] == s;
    return if s == "" || result == 0 || result > SIDE_LIMIT then None else Some(result);
  }

  lemma {:induction false} ValueFails(s: string, n: nat)
    requires n <= |s| && Value(s[..n]).None?
    ensures Value(s).None?
    decreases |s|
  {
    if n < |s| {
      assert s[..|s| - 1][..n] == s[..n];
      ValueFails(s[..|s| - 1], n);
    } else {
      assert s[..n] == s;
    }
  }

  lemma {:induction false} ValueGrows(s: string, n: nat)
    requires n <= |s| && Value(s[..n]).Some?
    ensures Value(s).Some? ==> Value(s).value >= Value(s[..n]).value
    decreases |s|
  {
    if n < |s| {
      assert s[..|s| - 1][..n] == s[..n];
      ValueGrows(s[..|s| - 1], n);
    } else {
      assert s[..n] == s;
    }
  }

  method DecodePpm(text: string) returns (image: Option<Image>)
    ensures image == Decode(text)
  {
    hide TokenAt, Dimension;
    var magic, i := ReadToken(text, 0);
    if magic.None? || magic.value != "P6" { return None; }
    var w, j := ReadToken(text, i);
    if w.None? { return None; }
    var width := ReadDimension(w.value);
    if width.None? { return None; }
    var h, k := ReadToken(text, j);
    if h.None? { return None; }
    var height := ReadDimension(h.value);
    if height.None? { return None; }
    var depth, n := ReadToken(text, k);
    if depth.None? || depth.value != "255" { return None; }
    if n == |text| || !IsSpace(text[n]) { return None; }
    var size := width.value * height.value * 3;
    if |text| - (n + 1) != size { return None; }
    return Some(Image(width.value, height.value, text[n + 1..]));
  }

  // ----- Printing -----

  function Header(width: nat, height: nat): string {
    "P6\n" + Decimal(width) + " " + Decimal(height) + "\n255\n"
  }

  /** Red, green and blue of the k-th pixel of a four-byte readback. */
  function Pixel(pixels: string, k: nat, bgra: bool): (r: string)
    requires 4 * k + 3 < |pixels|
    ensures |r| == 3
  {
    [pixels[4 * k + if bgra then 2 else 0], pixels[4 * k + 1], pixels[4 * k + if bgra then 0 else 2]]
  }

  /** The colours of `n` pixels from the one at `start`. */
  function Colours(pixels: string, start: nat, n: nat, bgra: bool): (r: string)
    requires 4 * (start + n) <= |pixels|
    ensures |r| == 3 * n
  {
    if n == 0 then "" else Colours(pixels, start, n - 1, bgra) + Pixel(pixels, start + n - 1, bgra)
  }

  lemma {:induction false} ColoursJoin(pixels: string, start: nat, m: nat, n: nat, bgra: bool)
    requires 4 * (start + m + n) <= |pixels|
    ensures Colours(pixels, start, m, bgra) + Colours(pixels, start + m, n, bgra) == Colours(pixels, start, m + n, bgra)
  {
    if n > 0 { ColoursJoin(pixels, start, m, n - 1, bgra); }
  }

  /** The k-th colour has the red, green and blue of the k-th pixel, stored in this order, or in reverse for BGRA. */
  predicate SameColour(rgb: string, pixels: string, bgra: bool, k: nat)
    requires 3 * k + 2 < |rgb| && 4 * k + 2 < |pixels|
  {
    if bgra
    then rgb[3 * k] == pixels[4 * k + 2] && rgb[3 * k + 1] == pixels[4 * k + 1] && rgb[3 * k + 2] == pixels[4 * k]
    else rgb[3 * k..3 * k + 3] == pixels[4 * k..4 * k + 3]
  }

  lemma {:induction false} ColoursAre(pixels: string, n: nat, bgra: bool, k: nat)
    requires 4 * n <= |pixels| && k < n
    ensures SameColour(Colours(pixels, 0, n, bgra), pixels, bgra, k)
  {
    if k < n - 1 {
      ColoursAre(pixels, n - 1, bgra, k);
      assert Colours(pixels, 0, n, bgra)[3 * k..3 * k + 3] == Colours(pixels, 0, n - 1, bgra)[3 * k..3 * k + 3];
    }
  }

  /** Fills the row buffer from one row of the readback. */
  method FillRow(row: array<char>, pixels: string, start: nat, width: nat, bgra: bool)
    requires row.Length == 3 * width && 4 * (start + width) <= |pixels|
    modifies row
    ensures row[..] == Colours(pixels, start, width, bgra)
  {
    for x := 0 to width
      invariant row[..3 * x] == Colours(pixels, start, x, bgra)
    {
      var pixel := (start + x) * 4;
      row[3 * x] := pixels[pixel + if bgra then 2 else 0];
      row[3 * x + 1] := pixels[pixel + 1];
      row[3 * x + 2] := pixels[pixel + if bgra then 0 else 2];
      assert row[..3 * (x + 1)] == row[..3 * x] + [row[3 * x], row[3 * x + 1], row[3 * x + 2]];
    }
    assert row[..3 * width] == row[..];
  }

  method WriteImage(width: nat, height: nat, pixels: string, bgra: bool) returns (output: string)
    requires |pixels| == width * height * 4
    ensures output == Header(width, height) + Colours(pixels, 0, width * height, bgra)
  {
    hide Header, Colours;
    NoRows(width, height, pixels, bgra);
    output := Header(width, height);
    var row := new char[width * 3];
    for y := 0 to height
      invariant y * width <= width * height && output == Printed(width, height, pixels, y * width, bgra)
    {
      NextRow(width, height, y);
      FillRow(row, pixels, y * width, width, bgra);
      OneMoreRow(width, height, pixels, y * width, bgra);
      output := output + row[..];
    }
  }

  function Printed(width: nat, height: nat, pixels: string, n: nat, bgra: bool): string
    requires 4 * n <= |pixels|
  {
    Header(width, height) + Colours(pixels, 0, n, bgra)
  }

  lemma NoRows(width: nat, height: nat, pixels: string, bgra: bool)
    ensures Printed(width, height, pixels, 0, bgra) == Header(width, height)
  {
  }

  lemma OneMoreRow(width: nat, height: nat, pixels: string, n: nat, bgra: bool)
    requires 4 * (n + width) <= |pixels|
    ensures Printed(width, height, pixels, n, bgra) + Colours(pixels, n, width, bgra) ==
            Printed(width, height, pixels, n + width, bgra)
  {
    hide Header;
    ColoursJoin(pixels, 0, n, width, bgra);
  }

  lemma NextRow(width: nat, height: nat, y: nat)
    requires y < height
    ensures y * width + width == (y + 1) * width && (y + 1) * width <= width * height
  {
    assert (y + 1) * width <= height * width;
  }

  // ----- Round trip -----

  lemma {:induction false} DecimalValue(n: nat)
    ensures Value(Decimal(n)) == Some(n) && Decimal(n) != ""
    ensures forall i :: 0 <= i < |Decimal(n)| ==> IsDigit(Decimal(n)[i])
  {
    if n >= 10 {
      DecimalValue(n / 10);
      assert Decimal(n)[..|Decimal(n)| - 1] == Decimal(n / 10);
    } else {
      assert Decimal(n)[..0] == "";
    }
  }

  lemma DecimalShort(n: nat)
    requires n <= SIDE_LIMIT
    ensures |Decimal(n)| <= 4
  {
    if n >= 10 {
      assert |Decimal(n)| == |Decimal(n / 10)| + 1;
      if n >= 100 {
        assert |Decimal(n / 10)| == |Decimal(n / 10 / 10)| + 1;
        if n >= 1000 { assert |Decimal(n / 10 / 10)| == |Decimal(n / 10 / 10 / 10)| + 1; }
      }
    }
  }

  predicate IsWord(s: string) {
    0 < |s| <= TOKEN_LIMIT && s[0] != '#' && forall i :: 0 <= i < |s| ==> !IsSpace(s[i])
  }

  lemma {:induction false} WordEnds(text: string, i: nat, e: nat)
    requires i <= e < |text| && IsSpace(text[e]) && forall k :: i <= k < e ==> !IsSpace(text[k])
    ensures WordEnd(text, i) == e
    decreases e - i
  {
    if i < e { WordEnds(text, i + 1, e); }
  }

  /** A word between two white spaces is the token from its leading white space on. */
  lemma WordIsToken(text: string, before: string, gap: string, word: string, rest: string)
    requires text == before + gap + word + rest && IsWord(word) && rest != "" && IsSpace(rest[0])
    requires gap == "" || (|gap| == 1 && IsSpace(gap[0]))
    requires |before| + |gap| + |word| <= HEADER_LIMIT
    ensures TokenAt(text, |before|) == Some((word, |before| + |gap| + |word|))
  {
    var b, e := |before + gap|, |before + gap + word|;
    assert text[b] == word[0] && text[e] == rest[0];
    assert forall k :: b <= k < e ==> text[k] == word[k - b];
    assert text[b..e] == word;
    WordEnds(text, b, e);
    assert Skip(text, b) == Some(b);
    if gap != "" { assert text[|before|] == gap[0]; }
  }

  lemma DigitsAreWord(n: nat)
    requires 0 < n <= SIDE_LIMIT
    ensures IsWord(Decimal(n)) && Dimension(Decimal(n)) == Some(n) && |Decimal(n)| <= 4
  {
    DecimalValue(n);
    DecimalShort(n);
  }

  /** The printed file, cut at each of its words. */
  lemma Cuts(w: string, h: string, rgb: string)
    ensures var text := "P6\n" + w + " " + h + "\n255\n" + rgb;
            && text == "" + "" + "P6" + ("\n" + w + " " + h + "\n255\n" + rgb)
            && text == "P6" + "\n" + w + (" " + h + "\n255\n" + rgb)
  {
    assert "P6\n" == "P6" + "\n";
  }

  lemma MoreCuts(w: string, h: string, rgb: string)
    ensures var text := "P6\n" + w + " " + h + "\n255\n" + rgb;
            && text == ("P6\n" + w) + " " + h + ("\n255\n" + rgb)
            && text == ("P6\n" + w + " " + h) + "\n" + "255" + ("\n" + rgb)
            && text == ("P6\n" + w + " " + h + "\n255") + ("\n" + rgb)
  {
    assert "\n255\n" == "\n" + "255" + "\n" && "\n255" == "\n" + "255";
  }

  lemma FirstTokens(w: string, h: string, rgb: string)
    requires IsWord(w) && IsWord(h)
    ensures var text := "P6\n" + w + " " + h + "\n255\n" + rgb;
            TokenAt(text, 0) == Some(("P6", 2)) && TokenAt(text, 2) == Some((w, 3 + |w|))
  {
    var text := "P6\n" + w + " " + h + "\n255\n" + rgb;
    Cuts(w, h, rgb);
    hide TokenAt;
    WordIsToken(text, "", "", "P6", "\n" + w + " " + h + "\n255\n" + rgb);
    WordIsToken(text, "P6", "\n", w, " " + h + "\n255\n" + rgb);
  }

  lemma LastTokens(w: string, h: string, rgb: string)
    requires IsWord(w) && IsWord(h)
    ensures var text, n := "P6\n" + w + " " + h + "\n255\n" + rgb, |w| + |h|;
            && TokenAt(text, 3 + |w|) == Some((h, 4 + n)) && TokenAt(text, 4 + n) == Some(("255", 8 + n))
            && |text| == 9 + n + |rgb| && text[8 + n] == '\n' && text[9 + n..] == rgb
  {
    var text, n := "P6\n" + w + " " + h + "\n255\n" + rgb, |w| + |h|;
    MoreCuts(w, h, rgb);
    hide TokenAt;
    WordIsToken(text, "P6\n" + w, " ", h, "\n255\n" + rgb);
    WordIsToken(text, "P6\n" + w + " " + h, "\n", "255", "\n" + rgb);
    assert text[8 + n..] == "\n" + rgb;
    assert text[9 + n..] == text[8 + n..][1..];
  }

  /** Main result: what is printed is read back with the same dimensions and pixels, whatever bytes the pixels are. */
  lemma RoundTrip(width: nat, height: nat, rgb: string)
    requires 1 <= width <= SIDE_LIMIT && 1 <= height <= SIDE_LIMIT && |rgb| == width * height * 3
    ensures Decode(Header(width, height) + rgb) == Some(Image(width, height, rgb))
  {
    hide TokenAt, Dimension, Decimal, IsWord;
    var w, h := Decimal(width), Decimal(height);
    DigitsAreWord(width);
    DigitsAreWord(height);
    FirstTokens(w, h, rgb);
    LastTokens(w, h, rgb);
    assert Header(width, height) + rgb == "P6\n" + w + " " + h + "\n255\n" + rgb;
  }

  /** The reader accepts nothing but the announced number of pixel bytes, and returns exactly those. */
  lemma DecodedShape(text: string)
    requires Decode(text).Some?
    ensures var image := Decode(text).value;
            && 1 <= image.width <= SIDE_LIMIT && 1 <= image.height <= SIDE_LIMIT
            && |image.rgb| == image.width * image.height * 3 && |image.rgb| <= |text|
            && text[|text| - |image.rgb|..] == image.rgb
  {
    hide TokenAt, Value;
  }

  /** Writing a readback and reading the file back gives the colours of the readback. */
  method WriteThenRead(width: nat, height: nat, pixels: string, bgra: bool) returns (image: Option<Image>)
    requires 1 <= width <= SIDE_LIMIT && 1 <= height <= SIDE_LIMIT && |pixels| == width * height * 4
    ensures image.Some? && image.value.width == width && image.value.height == height
    ensures |image.value.rgb| == 3 * (width * height)
    ensures forall k :: 0 <= k < width * height ==> SameColour(image.value.rgb, pixels, bgra, k)
  {
    var file := WriteImage(width, height, pixels, bgra);
    RoundTrip(width, height, Colours(pixels, 0, width * height, bgra));
    image := DecodePpm(file);
    forall k | 0 <= k < width * height ensures SameColour(image.value.rgb, pixels, bgra, k) {
      ColoursAre(pixels, width * height, bgra, k);
    }
  }
}
