/** Tile addressing: the remote URL lists a task's fields as zoom/row/column
    (zoom, y, x), while the local save path lists them as zoom/column/row
    (zoom, x, y). Fields are decimal renderings as produced by `%d` and
    `strconv.Itoa`. Each address is parsed back to its task, which shows the
    field order and makes both addresses injective. */
module Addressing {
  import opened Tiles

  /** Fixed part of the tile server's URL template, up to the zoom field. */
  const TileUrlPrefix: string := "https://services.arcgisonline.com/ArcGIS/rest/services/World_Imagery/MapServer/tile/"

  /** File-name extension of both the remote tile and the saved file. */
  const Extension: string := ".png"

  predicate IsDigit(c: char) {
    '0' <= c <= '9'
  }

  /** Canonical base-10 text of a natural number: digits only, and no
      leading zero unless the number is zero itself. */
  predicate CanonicalDigits(s: string) {
    && |s| >= 1
    && (forall i :: 0 <= i < |s| ==> IsDigit(s[i]))
    && (s[0] == '0' ==> s == "0")
  }

  /** Canonical base-10 text of an integer: canonical digits, or a '-'
      followed by canonical digits of a non-zero number. */
  predicate CanonicalDecimal(s: string) {
    || CanonicalDigits(s)
    || (|s| >= 2 && s[0] == '-' && CanonicalDigits(s[1..]) && s[1] != '0')
  }

  /** Decimal digits of a natural number, most significant first, no
      leading zeros. */
  function Digits(n: nat): (s: string)
    ensures |s| >= 1
    ensures forall i :: 0 <= i < |s| ==> IsDigit(s[i])
    ensures CanonicalDigits(s)
    ensures s == "0" <==> n == 0
    decreases n
  {
    if n < 10 then ["0123456789"[n]] else Digits(n / 10) + ["0123456789"[n % 10]]
  }

  /** Decimal rendering of an integer, with a leading '-' exactly when it is
      negative. */
  function Decimal(n: int): (s: string)
    ensures |s| >= 1
    ensures forall i :: 0 <= i < |s| ==> s[i] != '/'
    ensures CanonicalDecimal(s)
    ensures s[0] == '-' <==> n < 0
  {
    if n < 0 then "-" + Digits(-n) else Digits(n)
  }

  /** Value of a string of decimal digits. */
  function DigitsValue(s: string): int {
    if |s| == 0 then 0 else DigitsValue(s[..|s| - 1]) * 10 + (s[|s| - 1] as int - '0' as int)
  }

  /** Value of an optionally negated string of decimal digits. */
  function ParseDecimal(s: string): int {
    if |s| > 0 && s[0] == '-' then -DigitsValue(s[1..]) else DigitsValue(s)
  }

  lemma {:induction false} DigitsRoundTrip(n: nat)
    ensures DigitsValue(Digits(n)) == n
    decreases n
  {
    var s := Digits(n);
    if n >= 10 {
      DigitsRoundTrip(n / 10);
      assert s[..|s| - 1] == Digits(n / 10);
    }
  }

  /** Parsing a rendered integer gives the integer back. */
  lemma DecimalRoundTrip(n: int)
    ensures ParseDecimal(Decimal(n)) == n
  {
    if n < 0 {
      DigitsRoundTrip(-n);
      assert Decimal(n)[1..] == Digits(-n);
    } else {
      DigitsRoundTrip(n);
    }
  }

  /** Number named by a "<decimal>.png" field, if it has that shape. */
  function ParseFileName(f: string): Option<int> {
    if |f| >= |Extension| && f[|f| - |Extension|..] == Extension then Some(ParseDecimal(f[..|f| - |Extension|]))
    else None
  }

  /** A string of digits reads as a natural number, at least its leading
      digit's value. */
  lemma {:induction false} DigitsValueBounds(s: string)
    requires |s| >= 1 && forall i :: 0 <= i < |s| ==> IsDigit(s[i])
    ensures DigitsValue(s) >= s[0] as int - '0' as int >= 0
    decreases |s|
  {
    if |s| > 1 {
      var init := s[..|s| - 1];
      DigitsValueBounds(init);
      assert init[0] == s[0];
    }
  }

  /** Reading canonical digits and rendering the value gives the same text:
      `Digits` produces every canonical digit string, and only those. */
  lemma {:induction false} CanonicalDigitsRoundTrip(s: string)
    requires CanonicalDigits(s)
    ensures DigitsValue(s) >= 0 && Digits(DigitsValue(s)) == s
    decreases |s|
  {
    DigitsValueBounds(s);
    var v := DigitsValue(s);
    var d := s[|s| - 1] as int - '0' as int;
    if |s| == 1 {
      assert v == d;
      assert "0123456789"[d] == s[0];
      assert s == [s[0]];
    } else {
      var init := s[..|s| - 1];
      assert init[0] == s[0];
      CanonicalDigitsRoundTrip(init);
      DigitsValueBounds(init);
      assert v == DigitsValue(init) * 10 + d;
      assert v / 10 == DigitsValue(init) && v % 10 == d;
      assert "0123456789"[d] == s[|s| - 1];
      assert s == init + [s[|s| - 1]];
    }
  }

  /** Parsing canonical decimal text and rendering the value gives the same
      text, so `Decimal` is the canonical rendering. */
  lemma CanonicalDecimalRoundTrip(s: string)
    requires CanonicalDecimal(s)
    ensures Decimal(ParseDecimal(s)) == s
  {
    if CanonicalDigits(s) {
      CanonicalDigitsRoundTrip(s);
      assert s[0] != '-';
    } else {
      var body := s[1..];
      CanonicalDigitsRoundTrip(body);
      DigitsValueBounds(body);
      assert ParseDecimal(s) == -DigitsValue(body) < 0;
      assert s == "-" + body;
    }
  }

  /** `"%d.png"` of a number: a single path element that parses back to the
      number. */
  function FileName(n: int): (f: string)
    ensures ParseFileName(f) == Some(n)
    ensures forall i :: 0 <= i < |f| ==> f[i] != '/'
  {
    var f := Decimal(n) + Extension;
    assert f[..|f| - |Extension|] == Decimal(n);
    assert f[|f| - |Extension|..] == Extension;
    DecimalRoundTrip(n);
    f
  }

  /** Path fields of the remote tile, in the server's zoom/row/column order. */
  function UrlFields(t: Task): seq<string> {
    [Decimal(t.zoom), Decimal(t.y), FileName(t.x)]
  }

  /** Path elements below the output directory: zoom, column, "<row>.png". */
  function PathFields(t: Task): seq<string> {
    [Decimal(t.zoom), Decimal(t.x), FileName(t.y)]
  }


  /** Reads three fields zoom/a/"b.png" back as the task (zoom, a, b). */
  function ParseFields(f: seq<string>): Option<(nat, int, int)> {
    if |f| != 3 then None
    else
      var z := ParseDecimal(f[0]);
      match ParseFileName(f[2])
      case None => None
      case Some(b) => if z < 0 then None else Some((z, ParseDecimal(f[1]), b))
  }

  /** Reads a save path back as a task, fields taken as zoom, x, y. */
  function ParseSavePath(p: seq<string>): Option<Task> {
    if |p| != 4 then None
    else match ParseFields(p[1..])
      case None => None
      case Some((z, a, b)) => Some(Task(z, a, b))
  }

  /** Swaps column and row. */
  function Transpose(t: Task): Task {
    Task(t.zoom, t.y, t.x)
  }

  /** The URL's fields are the save-path fields of the transposed tile: the
      row comes before the column remotely and after it locally. */
  lemma UrlIsTransposedPath(t: Task)
    ensures UrlFields(t) == PathFields(Transpose(t))
    ensures t.x != t.y ==> UrlFields(t) != PathFields(t)
  {
    if t.x != t.y {
      DecimalRoundTrip(t.x);
      DecimalRoundTrip(t.y);
      assert UrlFields(t)[1] != PathFields(t)[1];
    }
  }

  /** The elements joined by `filepath.Join`: the output directory followed by
      three slash-free elements, which parse back to the task in the zoom, x,
      y order. */
  function SavePath(outputDir: string, t: Task): (p: seq<string>)
    ensures |p| == 4 && p[0] == outputDir
    ensures forall k, i :: 1 <= k < 4 && 0 <= i < |p[k]| ==> p[k][i] != '/'
    ensures ParseSavePath(p) == Some(t)
  {
    var p := [outputDir] + PathFields(t);
    assert p[1..] == PathFields(t);
    DecimalRoundTrip(t.zoom);
    DecimalRoundTrip(t.x);
    p
  }

  /** Distinct tasks are saved under distinct paths. */
  lemma SavePathInjective(outputDir: string, a: Task, b: Task)
    ensures SavePath(outputDir, a) == SavePath(outputDir, b) ==> a == b
  {
    var pa, pb := SavePath(outputDir, a), SavePath(outputDir, b);
    assert ParseSavePath(pa) == Some(a) && ParseSavePath(pb) == Some(b);
  }

  /** Concatenation of fields with '/' between them. */
  function JoinSlash(fs: seq<string>): string {
    if |fs| == 0 then "" else if |fs| == 1 then fs[0] else fs[0] + "/" + JoinSlash(fs[1..])
  }

  /** Pieces of `s` between the '/' characters (always at least one). */
  function SplitSlash(s: string): (r: seq<string>)
    ensures |r| >= 1
  {
    if |s| == 0 then [""]
    else
      var rest := SplitSlash(s[1..]);
      if s[0] == '/' then [""] + rest else [[s[0]] + rest[0]] + rest[1..]
  }

  /** A slash-free prefix glues onto the first piece. */
  lemma {:induction false} SplitSlashPrefix(a: string, s: string)
    requires forall i :: 0 <= i < |a| ==> a[i] != '/'
    ensures SplitSlash(a + s) == [a + SplitSlash(s)[0]] + SplitSlash(s)[1..]
    decreases |a|
  {
    if |a| > 0 {
      assert (a + s)[0] == a[0];
      assert (a + s)[1..] == a[1..] + s;
      SplitSlashPrefix(a[1..], s);
      assert [a[0]] + (a[1..] + SplitSlash(s)[0]) == a + SplitSlash(s)[0];
    } else {
      var r := SplitSlash(s);
      assert a + s == s && a + r[0] == r[0];
      assert r == [r[0]] + r[1..];
    }
  }

  /** Splitting undoes joining when no field contains a '/'. */
  lemma {:induction false} SplitJoin(fs: seq<string>)
    requires |fs| >= 1
    requires forall k, i :: 0 <= k < |fs| && 0 <= i < |fs[k]| ==> fs[k][i] != '/'
    ensures SplitSlash(JoinSlash(fs)) == fs
    decreases |fs|
  {
    if |fs| == 1 {
      SplitSlashPrefix(fs[0], "");
      assert fs[0] + "" == fs[0];
    } else {
      var tail := JoinSlash(fs[1..]);
      SplitJoin(fs[1..]);
      assert fs[0] + "/" + tail == fs[0] + ("/" + tail);
      SplitSlashPrefix(fs[0], "/" + tail);
      assert ("/" + tail)[1..] == tail;
      assert fs[0] + "" == fs[0];
      assert fs == [fs[0]] + fs[1..];
    }
  }

  /** The remote URL, `TileURLTemplate` filled with zoom, y and x: the fixed
      server prefix, then a path that ends in the tile extension. */
  function Url(t: Task): (u: string)
    ensures |u| > |TileUrlPrefix| + |Extension|
    ensures u[..|TileUrlPrefix|] == TileUrlPrefix
    ensures u[|u| - |Extension|..] == Extension
  {
    TileUrlPrefix + Decimal(t.zoom) + "/" + Decimal(t.y) + "/" + Decimal(t.x) + Extension
  }

  /** The text requested for tile (1, 1, 1), character for character. */
  lemma UrlOfTileOneOneOne()
    ensures Url(Task(1, 1, 1)) == TileUrlPrefix + "1/1/1.png"
  {
    assert Decimal(1) == "1";
  }

  /** Reads a tile URL back as a task, fields taken as zoom, y, x. */
  function ParseUrl(u: string): Option<Task> {
    if |u| < |TileUrlPrefix| || u[..|TileUrlPrefix|] != TileUrlPrefix then None
    else match ParseFields(SplitSlash(u[|TileUrlPrefix|..]))
      case None => None
      case Some((z, a, b)) => Some(Task(z, b, a))
  }

  /** The URL is the fixed prefix followed by the fields joined with '/'. */
  lemma UrlJoinsFields(t: Task)
    ensures Url(t) == TileUrlPrefix + JoinSlash(UrlFields(t))
  {
    var fs := UrlFields(t);
    assert JoinSlash(fs[2..]) == FileName(t.x);
    assert JoinSlash(fs[1..]) == Decimal(t.y) + "/" + FileName(t.x);
  }

  /** The URL's fields parse back as zoom, row, column. */
  lemma UrlFieldsRoundTrip(t: Task)
    ensures SplitSlash(JoinSlash(UrlFields(t))) == UrlFields(t)
    ensures ParseFields(UrlFields(t)) == Some((t.zoom, t.y, t.x))
  {
    assert forall i :: 0 <= i < |Extension| ==> Extension[i] != '/';
    SplitJoin(UrlFields(t));
    DecimalRoundTrip(t.zoom);
    DecimalRoundTrip(t.y);
  }

  /** A URL names its task, with the row read before the column. */
  lemma UrlRoundTrip(t: Task)
    ensures ParseUrl(Url(t)) == Some(t)
  {
    var rest := JoinSlash(UrlFields(t));
    var u := TileUrlPrefix + rest;
    UrlJoinsFields(t);
    UrlFieldsRoundTrip(t);
    assert u[|TileUrlPrefix|..] == rest;
    assert u[..|TileUrlPrefix|] == TileUrlPrefix;
  }

  /** Distinct tasks are fetched from distinct URLs. */
  lemma UrlInjective(a: Task, b: Task)
    ensures Url(a) == Url(b) ==> a == b
  {
    UrlRoundTrip(a);
    UrlRoundTrip(b);
  }
}
