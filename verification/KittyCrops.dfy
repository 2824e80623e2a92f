/**
  Cropping an image line to the rows of the image that are visible: which pixels are shown,
  and that the cropped line still stands for the same image.
*/
module KittyCrops {
  import opened Arithmetic
  import opened Decimals
  import opened KittyImages
  import opened KittyPlacements
  import opened Sequences
  import opened Wrappers

  /** The first pixel row of cell row k of an image of so many cell rows, rounded down and up. */
  function FloorRow(heightPx: nat, rows: nat, k: nat): nat
    requires rows > 0
  {
    heightPx * k / rows
  }

  function CeilRow(heightPx: nat, rows: nat, k: nat): nat
    requires rows > 0
  {
    (heightPx * k + rows - 1) / rows
  }

  datatype Crop = Crop(y: nat, height: nat, rows: nat)

  /** None: the line is left as it is. */
  function CropOf(m: Metadata, hiddenRows: int, visibleRows: int): Option<Crop> {
    if hiddenRows < 0 || hiddenRows >= m.rows || visibleRows <= 0 then None
    else
      var croppedRows := Min(visibleRows, m.rows - hiddenRows);
      if hiddenRows == 0 && croppedRows == m.rows then None
      else
        var y := FloorRow(m.heightPx, m.rows, hiddenRows);
        var end := CeilRow(m.heightPx, m.rows, hiddenRows + croppedRows);
        Some(Crop(y, Max(1, Min(m.heightPx, end) - y), croppedRows))
  }

  lemma CeilNearFloor(p: nat, d: nat)
    requires d > 0
    ensures p / d <= (p + d - 1) / d <= p / d + 1
  {
    var q := p / d;
    assert d * q <= p < d * q + d;
    assert d * (q + 2) == d * q + d + d;
    DivAtLeast(p + d - 1, d, q);
    DivLess(p + d - 1, d, q + 2);
  }

  lemma CeilAtMost(p: nat, d: nat, x: nat)
    requires d > 0 && p <= d * x
    ensures (p + d - 1) / d <= x
  {
    assert d * (x + 1) == d * x + d;
    DivLess(p + d - 1, d, x + 1);
  }

  lemma RowBounds(heightPx: nat, rows: nat, k: nat)
    requires rows > 0 && k <= rows
    ensures FloorRow(heightPx, rows, k) <= CeilRow(heightPx, rows, k) <= heightPx
    ensures CeilRow(heightPx, rows, k) <= FloorRow(heightPx, rows, k) + 1
    ensures k < rows && heightPx > 0 ==> FloorRow(heightPx, rows, k) < heightPx
  {
    var p := heightPx * k;
    Monotone(heightPx, k, rows);
    CeilNearFloor(p, rows);
    CeilAtMost(p, rows, heightPx);
    if k < rows && heightPx > 0 {
      Monotone(heightPx, k + 1, rows);
      assert heightPx * (k + 1) == p + heightPx;
      DivLess(p, rows, heightPx);
    }
  }

  /** A crop shows at least one pixel row, and only pixel rows and cell rows of the image. */
  lemma CropStaysInside(m: Metadata, hiddenRows: int, visibleRows: int)
    requires m.heightPx > 0 && CropOf(m, hiddenRows, visibleRows).Some?
    ensures var c := CropOf(m, hiddenRows, visibleRows).value;
            && 1 <= c.height && c.y + c.height <= m.heightPx
            && 1 <= c.rows <= visibleRows && hiddenRows + c.rows <= m.rows
  {
    RowBounds(m.heightPx, m.rows, hiddenRows);
    var croppedRows := Min(visibleRows, m.rows - hiddenRows);
    RowBounds(m.heightPx, m.rows, hiddenRows + croppedRows);
  }

  /** Two crops that follow one another leave no pixel row out between them and share at most one. */
  lemma CropsTile(m: Metadata, top: nat, middle: nat, bottom: nat)
    requires top < middle < bottom <= m.rows
    ensures var upper := CropOf(m, top, middle - top);
            var lower := CropOf(m, middle, bottom - middle);
            && upper.Some? && lower.Some?
            && lower.value.y <= upper.value.y + upper.value.height <= lower.value.y + 1
  {
    RowBounds(m.heightPx, m.rows, top);
    RowBounds(m.heightPx, m.rows, middle);
    FloorBelowCeil(m.heightPx, m.rows, top, middle);
  }

  /** A later cell row ends below the start of an earlier one, unless the image has no pixels. */
  lemma FloorBelowCeil(heightPx: nat, rows: nat, a: nat, b: nat)
    requires rows > 0 && a < b
    ensures FloorRow(heightPx, rows, a) <= FloorRow(heightPx, rows, b)
    ensures heightPx > 0 ==> FloorRow(heightPx, rows, a) < CeilRow(heightPx, rows, b)
  {
    var p, q := heightPx * a, heightPx * b;
    var low := p / rows;
    Monotone(heightPx, a + 1, b);
    assert heightPx * (a + 1) == p + heightPx;
    assert rows * low <= p;
    DivAtLeast(q, rows, low);
    if heightPx > 0 {
      assert rows * (low + 1) == rows * low + rows;
      DivAtLeast(q + rows - 1, rows, low + 1);
    }
  }

  // ----- The cropped line -----

  predicate IsCropped(field: string) {
    |field| >= 2 && field[1] == '=' && (field[0] == 'y' || field[0] == 'h' || field[0] == 'r')
  }

  function Uncropped(fields: seq<string>): seq<string> {
    if fields == [] then []
    else if IsCropped(fields[0]) then Uncropped(fields[1..])
    else [fields[0]] + Uncropped(fields[1..])
  }

  function CropFields(fields: seq<string>, crop: Crop): seq<string> {
    Uncropped(fields)
    + Texts([Control('y', Decimal(crop.y)), Control('h', Decimal(crop.height)), Control('r', Decimal(crop.rows))])
  }

  function CropKittyImageLine(line: string, lookup: Lookup, hiddenRows: int, visibleRows: int): string {
    var found := FindIntroducer(line);
    var registered := RegisteredIn(line, lookup);
    if found.None? || registered.None? then line
    else
      var crop := CropOf(registered.value.metadata, hiddenRows, visibleRows);
      if crop.None? then line
      else
        line[..found.value.start] + KITTY_PREFIX
        + JoinWith(CropFields(SplitOn(found.value.controls, ','), crop.value), ",")
        + line[found.value.start + |KITTY_PREFIX| + |found.value.controls|..]
  }

  lemma CroppedIsNoId(field: string)
    requires IsCropped(field)
    ensures !IsIdField(field)
  {
  }

  lemma {:induction false} UncroppedKeepsId(fields: seq<string>, added: seq<string>)
    requires forall k :: 0 <= k < |added| ==> !IsIdField(added[k])
    ensures ImageIdOf(Uncropped(fields) + added) == ImageIdOf(fields)
    decreases |fields|
  {
    if fields == [] {
      assert [] + added == added;
      NoIdInFields(added);
    } else {
      UncroppedKeepsId(fields[1..], added);
      var rest := Uncropped(fields[1..]) + added;
      if IsCropped(fields[0]) {
        CroppedIsNoId(fields[0]);
        assert Uncropped(fields) + added == rest;
      } else {
        var all := [fields[0]] + rest;
        assert Uncropped(fields) + added == all && all[0] == fields[0] && all[1..] == rest;
      }
    }
  }

  lemma {:induction false} NoIdInFields(fields: seq<string>)
    requires forall k :: 0 <= k < |fields| ==> !IsIdField(fields[k])
    ensures ImageIdOf(fields) == None
  {
    if fields != [] {
      NoIdInFields(fields[1..]);
    }
  }

  ghost predicate Without(fields: seq<string>, c: char) {
    forall k :: 0 <= k < |fields| ==> c !in fields[k]
  }

  lemma {:induction false} SplitWithout(s: string, c: char, separator: char)
    ensures Without(SplitOn(s, separator), separator)
    ensures c !in s ==> Without(SplitOn(s, separator), c)
  {
    if s != [] {
      SplitWithout(s[1..], c, separator);
    }
  }

  lemma {:induction false} UncroppedWithout(fields: seq<string>, c: char)
    requires Without(fields, c)
    ensures Without(Uncropped(fields), c)
  {
    if fields != [] {
      UncroppedWithout(fields[1..], c);
    }
  }

  lemma CropControls(crop: Crop) returns (added: seq<string>)
    ensures added == Texts([Control('y', Decimal(crop.y)), Control('h', Decimal(crop.height)), Control('r', Decimal(crop.rows))])
    ensures |added| == 3 && Without(added, ',') && Without(added, ';')
    ensures forall k :: 0 <= k < 3 ==> !IsIdField(added[k])
  {
    var controls := [Control('y', Decimal(crop.y)), Control('h', Decimal(crop.height)), Control('r', Decimal(crop.rows))];
    added := Texts(controls);
    forall k | 0 <= k < 3
      ensures ',' !in added[k] && ';' !in added[k] && !IsIdField(added[k])
    {
      TextIsClean(controls[k], ',');
      TextIsClean(controls[k], ';');
      assert added[k] == controls[k].Text();
      assert added[k][0] == controls[k].key;
    }
  }

  /** The fields of a cropped line: no separators in them, and the same image id. */
  lemma CropFieldsAreClean(text: string, crop: Crop)
    requires ';' !in text
    ensures var fields := CropFields(SplitOn(text, ','), crop);
            && SplitOn(JoinWith(fields, ","), ',') == fields
            && ';' !in JoinWith(fields, ",") && JoinWith(fields, ",") != ""
            && ImageIdOf(fields) == IdIn(text)
  {
    var before := SplitOn(text, ',');
    var added := CropControls(crop);
    var fields := CropFields(before, crop);
    SplitWithout(text, ';', ',');
    UncroppedWithout(before, ',');
    UncroppedWithout(before, ';');
    assert Without(fields, ',') && Without(fields, ';');
    SplitJoined(fields, ',');
    JoinAvoids(fields, ';');
    UncroppedKeepsId(before, added);
    assert fields[|fields| - 3] == added[0];
    assert |fields| >= 3 && |SplitOn("", ',')| == 1;
  }

  /** The part of a line before its introducer, the new controls, and the rest from the semicolon on. */
  lemma NewControls(line: string, start: nat, text: string, controls: string, cropped: string)
    requires FindIntroducer(line) == Some(Introducer(start, text))
    requires ';' !in controls
    requires start + |KITTY_PREFIX| + |text| <= |line|
    requires cropped == line[..start] + KITTY_PREFIX + controls + line[start + |KITTY_PREFIX| + |text|..]
    ensures FindIntroducer(cropped) == Some(Introducer(start, controls))
  {
    var from := start + |KITTY_PREFIX|;
    var rest := line[from + |text| + 1..];
    SemicolonAfter(line, from, text);
    assert line[start..from] == KITTY_PREFIX;
    assert cropped[..from] == line[..from];
    SameIntroducer(line, cropped, start);
    assert cropped[from..] == controls + ";" + rest;
    FindsAfter(cropped, from, controls, ";", rest);
  }

  lemma SemicolonAfter(line: string, from: nat, text: string)
    requires IndexFrom(line, ";", from) == from + |text|
    ensures line[from + |text|..] == ";" + line[from + |text| + 1..]
  {
    IndexFromIsFirst(line, ";", from);
    assert line[from + |text|..from + |text| + 1] == ";";
  }

  /** Where the first introducer is depends on the text up to its end only. */
  lemma SameIntroducer(line: string, other: string, start: nat)
    requires IndexOf(line, KITTY_PREFIX) == start
    requires start + |KITTY_PREFIX| <= |other| && other[..start + |KITTY_PREFIX|] == line[..start + |KITTY_PREFIX|]
    ensures IndexOf(other, KITTY_PREFIX) == start
  {
    SameUpTo(line, other, start + |KITTY_PREFIX|, start);
    forall j | 0 <= j < start ensures !OccursAt(other, KITTY_PREFIX, j) {
      assert !OccursAt(line, KITTY_PREFIX, j);
      SameUpTo(line, other, start + |KITTY_PREFIX|, j);
    }
  }

  lemma SameUpTo(line: string, other: string, n: nat, j: nat)
    requires n <= |line| && n <= |other| && other[..n] == line[..n] && j + |KITTY_PREFIX| <= n
    ensures OccursAt(other, KITTY_PREFIX, j) == OccursAt(line, KITTY_PREFIX, j)
  {
    assert other[j..j + 3] == other[..n][j..j + 3] && line[j..j + 3] == line[..n][j..j + 3];
  }

  /** A cropped line still stands for the image that the line stood for. */
  lemma CropKeepsImage(line: string, lookup: Lookup, hiddenRows: int, visibleRows: int)
    ensures RegisteredIn(CropKittyImageLine(line, lookup, hiddenRows, visibleRows), lookup) == RegisteredIn(line, lookup)
  {
    var found, registered := FindIntroducer(line), RegisteredIn(line, lookup);
    if found.Some? && registered.Some? {
      var crop := CropOf(registered.value.metadata, hiddenRows, visibleRows);
      if crop.Some? {
        var text, start := found.value.controls, found.value.start;
        TextHasNoSemicolon(line);
        CropFieldsAreClean(text, crop.value);
        var controls := JoinWith(CropFields(SplitOn(text, ','), crop.value), ",");
        NewControls(line, start, text, controls, CropKittyImageLine(line, lookup, hiddenRows, visibleRows));
      }
    }
  }

  lemma TextHasNoSemicolon(line: string)
    requires FindIntroducer(line).Some?
    ensures var found := FindIntroducer(line).value;
            ';' !in found.controls && found.start + |KITTY_PREFIX| + |found.controls| <= |line|
  {
    var found := FindIntroducer(line).value;
    var from := found.start + |KITTY_PREFIX|;
    IndexFromIsFirst(line, ";", from);
    forall k | 0 <= k < |found.controls| ensures found.controls[k] != ';' {
      assert !OccursAt(line, ";", from + k);
      assert line[from + k..from + k + 1] == [found.controls[k]];
    }
  }

  // ----- Which pixels and which controls -----

  /**
    A crop starts at the pixel row in which its first cell row starts and ends with the pixel row
    in which its last cell row ends. There is none when nothing of the image is visible, or all of it.
  */
  lemma CropExactly(m: Metadata, hiddenRows: int, visibleRows: int)
    requires m.heightPx > 0
    ensures var c := CropOf(m, hiddenRows, visibleRows);
            && (c.None? <==> hiddenRows < 0 || hiddenRows >= m.rows || visibleRows <= 0 || (hiddenRows == 0 && visibleRows >= m.rows))
            && (c.Some? ==>
                  var y, end, n := c.value.y, c.value.y + c.value.height, m.rows;
                  && c.value.rows == (if visibleRows < n - hiddenRows then visibleRows else n - hiddenRows)
                  && n * y <= m.heightPx * hiddenRows < n * (y + 1)
                  && n * (end - 1) < m.heightPx * (hiddenRows + c.value.rows) <= n * end)
  {
    var c := CropOf(m, hiddenRows, visibleRows);
    if c.Some? {
      var last := hiddenRows + c.value.rows;
      RowBounds(m.heightPx, m.rows, hiddenRows);
      RowBounds(m.heightPx, m.rows, last);
      FloorBelowCeil(m.heightPx, m.rows, hiddenRows, last);
      FloorIs(m.heightPx * hiddenRows, m.rows);
      CeilIs(m.heightPx * last, m.rows);
    }
  }

  lemma FloorIs(p: nat, d: nat)
    requires d > 0
    ensures d * (p / d) <= p < d * (p / d + 1)
  {
  }

  lemma CeilIs(p: nat, d: nat)
    requires d > 0
    ensures d * ((p + d - 1) / d - 1) < p <= d * ((p + d - 1) / d)
  {
    var q := (p + d - 1) / d;
    assert d * q <= p + d - 1 < d * q + d;
    assert d * (q - 1) == d * q - d;
  }

  /** The fields that stay: all but the old crop. */
  lemma {:induction false} UncroppedExactly(fields: seq<string>, k: nat) returns (kept: seq<nat>)
    requires k <= |fields|
    ensures ArePositions(kept, k, |fields|) && (forall j :: k <= j < |fields| ==> (j in kept <==> !IsCropped(fields[j])))
    ensures ArePicked(Uncropped(fields[k..]), fields, kept)
    decreases |fields| - k
  {
    if k == |fields| {
      kept := [];
    } else {
      var later := UncroppedExactly(fields, k + 1);
      assert fields[k..][1..] == fields[k + 1..];
      PickFirst(Uncropped(fields[k + 1..]), fields, k, later);
      if IsCropped(fields[k]) {
        kept := later;
      } else {
        kept := [k] + later;
      }
    }
  }

  ghost predicate ArePositions(kept: seq<nat>, k: nat, n: nat) {
    && (forall i :: 0 <= i < |kept| ==> k <= kept[i] < n)
    && forall i, j :: 0 <= i < j < |kept| ==> kept[i] < kept[j]
  }

  ghost predicate ArePicked(picked: seq<string>, fields: seq<string>, kept: seq<nat>) {
    |picked| == |kept| && forall i :: 0 <= i < |kept| ==> kept[i] < |fields| && picked[i] == fields[kept[i]]
  }

  lemma PickFirst(picked: seq<string>, fields: seq<string>, k: nat, kept: seq<nat>)
    requires k < |fields| && ArePicked(picked, fields, kept) && ArePositions(kept, k + 1, |fields|)
    ensures ArePicked([fields[k]] + picked, fields, [k] + kept) && ArePositions([k] + kept, k, |fields|)
    ensures forall j :: j in [k] + kept <==> j == k || j in kept
  {
  }

  /**
    A cropped line has the controls of the line without an old crop, and then the new one; all
    else in it stays. Without an image that is registered, or without anything to crop, it stays whole.
  */
  lemma CroppedLineExactly(line: string, lookup: Lookup, hiddenRows: int, visibleRows: int)
    returns (before: seq<string>, after: seq<string>, kept: seq<nat>)
    ensures var found, registered, r := FindIntroducer(line), RegisteredIn(line, lookup), CropKittyImageLine(line, lookup, hiddenRows, visibleRows);
            if found.None? || registered.None? || CropOf(registered.value.metadata, hiddenRows, visibleRows).None? then r == line
            else
              var start, text, crop := found.value.start, found.value.controls, CropOf(registered.value.metadata, hiddenRows, visibleRows).value;
              && start + 3 + |text| <= |line| && before == SplitOn(text, ',') && after == SplitOn(JoinWith(after, ","), ',')
              && r == line[..start] + "\U{1B}_G" + JoinWith(after, ",") + line[start + 3 + |text|..]
              && |after| == |kept| + 3
              && (forall j :: 0 <= j < |before| ==>
                    (j in kept <==> !(|before[j]| >= 2 && before[j][1] == '=' && (before[j][0] == 'y' || before[j][0] == 'h' || before[j][0] == 'r'))))
              && ArePositions(kept, 0, |before|) && ArePicked(after[..|kept|], before, kept)
              && after[|kept|] == "y=" + Decimal(crop.y) && after[|kept| + 1] == "h=" + Decimal(crop.height)
              && after[|kept| + 2] == "r=" + Decimal(crop.rows)
  {
    before, after, kept := [], [], [];
    var found, registered := FindIntroducer(line), RegisteredIn(line, lookup);
    if found.Some? && registered.Some? && CropOf(registered.value.metadata, hiddenRows, visibleRows).Some? {
      var text, crop := found.value.controls, CropOf(registered.value.metadata, hiddenRows, visibleRows).value;
      TextHasNoSemicolon(line);
      CropFieldsAreClean(text, crop);
      before, after := SplitOn(text, ','), CropFields(SplitOn(text, ','), crop);
      kept := UncroppedExactly(before, 0);
      assert before[0..] == before;
      NewFields(before, crop);
    }
  }

  lemma NewFields(fields: seq<string>, crop: Crop)
    ensures CropFields(fields, crop) == Uncropped(fields) + ["y=" + Decimal(crop.y), "h=" + Decimal(crop.height), "r=" + Decimal(crop.rows)]
  {
    var y, h, r := Control('y', Decimal(crop.y)), Control('h', Decimal(crop.height)), Control('r', Decimal(crop.rows));
    assert y.Text() == "y=" + Decimal(crop.y) && h.Text() == "h=" + Decimal(crop.height) && r.Text() == "r=" + Decimal(crop.rows);
    assert Texts([y, h, r])[0] == y.Text() && Texts([y, h, r])[1] == h.Text() && Texts([y, h, r])[2] == r.Text();
  }
}
