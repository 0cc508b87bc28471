/**
 * Decoder for the run-length encoded Life pattern format (RLE): a text of
 * comment lines (`#...`), one header line (`x = <w>, y = <h>, ...`) and data
 * lines in which `<count><tag>` stands for `count` cells of kind `tag`
 * (`b` dead, `o` alive), `$` ends a row and `!` ends the pattern. The decoded
 * pattern is placed inside a dead margin of `margin` cells on every side.
 */
module Rle {

  import W = World

  datatype Result<T> = Ok(value: T) | Err(message: string)

  // ---------------------------------------------------------------------------
  // Lines of a text, as Rust's `str::lines` yields them

  /** Position of the first line feed in `s`, or `|s|` when there is none. */
  function LineEnd(s: string): (k: nat)
    ensures k <= |s|
    ensures k < |s| ==> s[k] == '\n'
    ensures forall i :: 0 <= i < k ==> s[i] != '\n'
  {
    if s == [] || s[0] == '\n' then 0 else 1 + LineEnd(s[1..])
  }

  /** A line that ended in "\r\n" loses its carriage return too. */
  function StripCr(line: string): string
  {
    if |line| > 0 && line[|line| - 1] == '\r' then line[..|line| - 1] else line
  }

  /**
   * The lines of `s`: split at each line feed, a carriage return right
   * before a line feed dropped, and no empty line after a final line feed.
   */
  function Lines(s: string): (r: seq<string>)
    ensures forall i :: 0 <= i < |r| ==> '\n' !in r[i]
    ensures s != [] && '\n' !in s ==> r == [s]
    decreases |s|
  {
    if s == [] then []
    else
      var k := LineEnd(s);
      if k == |s| then [s]
      else [StripCr(s[..k])] + Lines(s[k + 1..])
  }

  // ---------------------------------------------------------------------------
  // Splitting a text into its header and its data

  predicate IsComment(line: string)
  {
    |line| >= 1 && line[0] == '#'
  }

  predicate IsHeader(line: string)
  {
    |line| >= 4 && line[..4] == "x = "
  }

  /** The header of `lines`: the last non-comment line starting with "x = ", or "" if none. */
  function Header(lines: seq<string>): string
  {
    if lines == [] then ""
    else
      var line := lines[|lines| - 1];
      if !IsComment(line) && IsHeader(line) then line else Header(lines[..|lines| - 1])
  }

  /** The data of `lines`: all lines that are neither comments nor headers, joined in order. */
  function Data(lines: seq<string>): string
  {
    if lines == [] then ""
    else
      var line := lines[|lines| - 1];
      Data(lines[..|lines| - 1]) + (if IsComment(line) || IsHeader(line) then "" else line)
  }

  /**
   * Sorts the lines of `raw` into header and data; fails with "lack" when
   * either of the two is empty.
   */
  method Split(raw: string) returns (r: Result<(string, string)>)
    ensures r.Err? <==> Header(Lines(raw)) == "" || Data(Lines(raw)) == ""
    ensures r.Err? ==> r.message == "lack"
    ensures r.Ok? ==> r.value == (Header(Lines(raw)), Data(Lines(raw)))
  {
    var setting := "";
    var data := "";
    var lines := Lines(raw);
    for i := 0 to |lines|
      invariant setting == Header(lines[..i]) && data == Data(lines[..i])
    {
      var line := lines[i];
      assert lines[..i + 1][..i] == lines[..i];
      if IsComment(line) {
        continue;
      } else if IsHeader(line) {
        setting := line;
      } else {
        data := data + line;
      }
    }
    assert lines[..|lines|] == lines;
    if setting == "" || data == "" {
      return Err("lack");
    }
    return Ok((setting, data));
  }

  /** The data of two runs of lines is the data of the first followed by that of the second. */
  lemma {:induction false} DataAppend(a: seq<string>, b: seq<string>)
    ensures Data(a + b) == Data(a) + Data(b)
  {
    if b != [] {
      assert (a + b)[..|a + b| - 1] == a + b[..|b| - 1];
      DataAppend(a, b[..|b| - 1]);
    } else {
      assert a + b == a;
    }
  }

  /** The header of two runs of lines is the second's, unless it has none. */
  lemma {:induction false} HeaderAppend(a: seq<string>, b: seq<string>)
    ensures Header(a + b) == if Header(b) != "" then Header(b) else Header(a)
  {
    if b != [] {
      assert (a + b)[..|a + b| - 1] == a + b[..|b| - 1];
      HeaderAppend(a, b[..|b| - 1]);
    } else {
      assert a + b == a;
    }
  }

  /** A comment line anywhere changes neither the header nor the data. */
  lemma CommentIgnored(a: seq<string>, c: string, b: seq<string>)
    requires IsComment(c)
    ensures Header(a + [c] + b) == Header(a + b)
    ensures Data(a + [c] + b) == Data(a + b)
  {
    HeaderAppend(a + [c], b);
    HeaderAppend(a, b);
    DataAppend(a + [c], b);
    DataAppend(a, b);
    assert (a + [c])[..|a + [c]| - 1] == a;
  }

  /**
   * The header is empty exactly when no line is a header line; otherwise it
   * is one of the lines, starts with "x = ", and no later line is a header line.
   */
  lemma {:induction false} HeaderIsLast(lines: seq<string>)
    ensures Header(lines) == "" <==> forall i :: 0 <= i < |lines| ==> !IsHeader(lines[i])
    ensures Header(lines) != "" ==>
              exists i :: 0 <= i < |lines| && lines[i] == Header(lines) &&
                IsHeader(lines[i]) && !IsComment(lines[i]) &&
                forall j :: i < j < |lines| ==> !IsHeader(lines[j])
  {
    if lines != [] {
      var init := lines[..|lines| - 1];
      HeaderIsLast(init);
      var line := lines[|lines| - 1];
      if IsHeader(line) {
        assert !IsComment(line);
        assert Header(lines) == line != "";
        assert lines[|lines| - 1] == Header(lines);
      } else if Header(init) != "" {
        assert Header(lines) == Header(init);
        var i :| 0 <= i < |init| && init[i] == Header(init) &&
                 IsHeader(init[i]) && !IsComment(init[i]) &&
                 forall j :: i < j < |init| ==> !IsHeader(init[j]);
        assert lines[i] == Header(lines);
        forall j | i < j < |lines|
          ensures !IsHeader(lines[j])
        {
          if j < |init| {
            assert lines[j] == init[j];
          }
        }
      } else {
        assert Header(lines) == "";
        assert forall i :: 0 <= i < |lines| ==> !IsHeader(lines[i]) by {
          forall i | 0 <= i < |lines| ensures !IsHeader(lines[i]) {
            if i < |init| { assert lines[i] == init[i]; }
          }
        }
      }
    }
  }

  // ---------------------------------------------------------------------------
  // Expanding the cell data

  predicate IsDigit(c: char)
  {
    '0' <= c <= '9'
  }

  predicate AllDigits(s: string)
  {
    forall i :: 0 <= i < |s| ==> IsDigit(s[i])
  }

  /** The number a string of decimal digits denotes. */
  function DecimalValue(s: string): nat
    requires AllDigits(s)
  {
    if s == [] then 0
    else DecimalValue(s[..|s| - 1]) * 10 + (s[|s| - 1] as int - '0' as int)
  }

  /** The run count in front of a tag: 1 when it is omitted. */
  function RunCount(num: string): (n: nat)
    requires AllDigits(num)
    ensures num == "" ==> n == 1
  {
    if num == "" then 1 else DecimalValue(num)
  }

  /** The cell kind a tag stands for: `o` is a live cell and `b` a dead one. */
  function IsAlive(tag: char): (r: bool)
    ensures tag == 'o' ==> r
    ensures tag == 'b' ==> !r
  {
    tag == 'o'
  }

  /** `n` cells, all `v`. */
  function Cells(v: bool, n: nat): (r: seq<bool>)
    ensures |r| == n && forall i :: 0 <= i < n ==> r[i] == v
  {
    if n == 0 then [] else Cells(v, n - 1) + [v]
  }

  /**
   * The decoder's state: the cells so far, the digits of a pending run
   * count and the number of cells written in the current row.
   */
  datatype Decoder = Decoder(lives: seq<bool>, num: string, rows: nat)

  /** One character of data against a row width of `w`. */
  function Feed(w: nat, d: Decoder, c: char): (d': Decoder)
    requires AllDigits(d.num)
    ensures AllDigits(d'.num)
    ensures |d.lives| <= |d'.lives| && d'.lives[..|d.lives|] == d.lives
  {
    if IsDigit(c) then
      d.(num := d.num + [c])
    else if c == 'b' || c == 'o' then
      var n := RunCount(d.num);
      Decoder(d.lives + Cells(IsAlive(c), n), "", d.rows + n)
    else if c == '$' then
      var n := RunCount(d.num);
      var lives := if d.rows < w then d.lives + Cells(false, w - d.rows) else d.lives;
      var lives := if n > 1 then lives + Cells(false, BlankRows(w, n - 1)) else lives;
      Decoder(lives, "", 0)
    else
      d
  }

  /** Number of cells in `k` blank rows of width `w`. */
  function BlankRows(w: nat, k: nat): nat
  {
    w * k
  }

  /** The characters of `s` fed one by one, up to the first `!`. */
  function Expand(w: nat, d: Decoder, s: string): Decoder
    requires AllDigits(d.num)
    decreases |s|
  {
    if s == [] || s[0] == '!' then d else Expand(w, Feed(w, d, s[0]), s[1..])
  }

  /** Expanding a text that does not start with `!` feeds its first character. */
  lemma ExpandFeed(w: nat, d: Decoder, s: string)
    requires AllDigits(d.num) && s != [] && s[0] != '!'
    ensures Expand(w, d, s) == Expand(w, Feed(w, d, s[0]), s[1..])
  {
  }

  /** `ExpandFeed` at position `i` of the data. */
  lemma ExpandAt(w: nat, d: Decoder, s: string, i: nat)
    requires AllDigits(d.num) && i < |s| && s[i] != '!'
    ensures Expand(w, d, s[i..]) == Expand(w, Feed(w, d, s[i]), s[i + 1..])
  {
    assert s[i..][0] == s[i] && s[i..][1..] == s[i + 1..];
    ExpandFeed(w, d, s[i..]);
  }

  /** Row width of a `rawW`-wide pattern inside its margins. */
  function PaddedWidth(rawW: nat, margin: nat): nat
  {
    rawW + margin * 2
  }

  /** The decoder before the first data character: the top margin and the left margin of the first row. */
  function Start(w: nat, margin: nat): (d: Decoder)
    ensures AllDigits(d.num)
  {
    Decoder(Cells(false, w * margin + margin), "", 0)
  }

  /**
   * The cells decoded from `lifeMap` for a `rawW` by `rawH` pattern with a
   * dead margin, padded with dead cells up to the full padded size.
   */
  function Decode(rawW: nat, rawH: nat, margin: nat, lifeMap: string): (r: seq<bool>)
    ensures |r| >= Size(rawW, rawH, margin)
  {
    var lives := Expanded(PaddedWidth(rawW, margin), margin, lifeMap);
    var total := Size(rawW, rawH, margin);
    if |lives| < total then lives + Cells(false, total - |lives|) else lives
  }

  /** Number of cells of a `rawW` by `rawH` pattern inside its margins. */
  function Size(rawW: nat, rawH: nat, margin: nat): nat
  {
    PaddedWidth(rawW, margin) * PaddedWidth(rawH, margin)
  }

  /** The cells the whole data expands to in rows of width `w`, before padding. */
  function Expanded(w: nat, margin: nat, lifeMap: string): seq<bool>
  {
    Expand(w, Start(w, margin), lifeMap).lives
  }

  /**
   * One step of the data loop: a digit extends the pending count, a tag
   * appends its run, `$` finishes the row and skips the blank rows its
   * count asks for; other characters are skipped.
   */
  method Advance(w: nat, lives: seq<bool>, num: string, rows: nat, c: char)
    returns (lives': seq<bool>, num': string, rows': nat)
    requires AllDigits(num)
    ensures Decoder(lives', num', rows') == Feed(w, Decoder(lives, num, rows), c)
  {
    if IsDigit(c) {
      return lives, num + [c], rows;
    } else if c == 'b' || c == 'o' {
      var n := RunCount(num);
      return lives + Cells(IsAlive(c), n), "", rows + n;
    } else if c == '$' {
      var n := RunCount(num);
      lives' := lives;
      if rows < w {
        lives' := lives' + Cells(false, w - rows);
      }
      if n > 1 {
        lives' := lives' + Cells(false, BlankRows(w, n - 1));
      }
      return lives', "", 0;
    }
    return lives, num, rows;
  }

  /**
   * The character loop of the decoder: starting from the margin, feeds the
   * data one character at a time and stops at `!` or at the end.
   */
  method ExpandData(w: nat, margin: nat, lifeMap: string) returns (lives: seq<bool>)
    ensures lives == Expanded(w, margin, lifeMap)
  {
    var num := "";
    lives := Cells(false, w * margin + margin);
    var rows: nat := 0;
    ghost var decoded := Expand(w, Start(w, margin), lifeMap);
    var i := 0;
    while i < |lifeMap|
      invariant 0 <= i <= |lifeMap|
      invariant AllDigits(num)
      invariant Expand(w, Decoder(lives, num, rows), lifeMap[i..]) == decoded
    {
      var c := lifeMap[i];
      if c == '!' {
        break;
      }
      ExpandAt(w, Decoder(lives, num, rows), lifeMap, i);
      lives, num, rows := Advance(w, lives, num, rows, c);
      i := i + 1;
    }
  }

  /** Expands the cell data of a pattern up to `!` and pads it with dead cells to the full size. */
  method ParseMap(rawW: nat, rawH: nat, margin: nat, lifeMap: string) returns (lives: seq<bool>)
    ensures lives == Decode(rawW, rawH, margin, lifeMap)
  {
    var w := rawW + margin * 2;
    var h := rawH + margin * 2;
    var total := w * h;
    lives := ExpandData(w, margin, lifeMap);
    if |lives| < total {
      lives := lives + Cells(false, total - |lives|);
    }
  }

  // ---------------------------------------------------------------------------
  // Reading a whole pattern

  /**
   * Reads a pattern from the text `body`: splits it, reads the pattern's
   * width and height from the header with `parseSetting`, and decodes the
   * data inside a dead margin. The result holds the padded width and height
   * and the cells; the errors of splitting and of `parseSetting` are passed on.
   */
  method FromString(body: string, margin: nat, parseSetting: string -> Result<(nat, nat)>)
    returns (r: Result<(nat, nat, seq<bool>)>)
    ensures var lines := Lines(body);
            r.Err? <==> Header(lines) == "" || Data(lines) == "" || parseSetting(Header(lines)).Err?
    ensures var lines := Lines(body);
            r.Err? && (Header(lines) == "" || Data(lines) == "") ==> r.message == "lack"
    ensures var lines := Lines(body);
            r.Err? && Header(lines) != "" && Data(lines) != "" ==> r.message == parseSetting(Header(lines)).message
    ensures r.Ok? ==>
              var lines := Lines(body);
              var (w, h) := parseSetting(Header(lines)).value;
              r.value == (PaddedWidth(w, margin), PaddedWidth(h, margin), Decode(w, h, margin, Data(lines)))
    ensures r.Ok? ==> |r.value.2| >= r.value.0 * r.value.1
  {
    var split := Split(body);
    if split.Err? {
      return Err(split.message);
    }
    var (setting, data) := split.value;
    var size := parseSetting(setting);
    if size.Err? {
      return Err(size.message);
    }
    var (w, h) := size.value;
    var lives := ParseMap(w, h, margin, data);
    return Ok((w + margin * 2, h + margin * 2, lives));
  }

  // ---------------------------------------------------------------------------
  // Properties of the decoder

  /** Expansion only ever appends cells: what was decoded stays in place. */
  lemma {:induction false} ExpandExtends(w: nat, d: Decoder, s: string)
    requires AllDigits(d.num)
    ensures |d.lives| <= |Expand(w, d, s).lives|
    ensures Expand(w, d, s).lives[..|d.lives|] == d.lives
    decreases |s|
  {
    if s != [] && s[0] != '!' {
      var d' := Feed(w, d, s[0]);
      ExpandExtends(w, d', s[1..]);
      assert Expand(w, d, s).lives[..|d'.lives|] == d'.lives;
      assert d'.lives[..|d.lives|] == d.lives;
    }
  }

  /** `r` is `lives` followed by dead cells up to a length of `total`, or `lives` itself when that is longer. */
  predicate PaddedFrom(r: seq<bool>, lives: seq<bool>, total: nat)
  {
    |r| == (if |lives| < total then total else |lives|) &&
    r[..|lives|] == lives &&
    forall k :: |lives| <= k < |r| ==> !r[k]
  }

  /**
   * The decoded cells are the expanded data padded with dead cells up to
   * the full padded grid.
   */
  lemma DecodePadding(rawW: nat, rawH: nat, margin: nat, lifeMap: string)
    ensures PaddedFrom(Decode(rawW, rawH, margin, lifeMap),
                       Expanded(PaddedWidth(rawW, margin), margin, lifeMap),
                       Size(rawW, rawH, margin))
  {
    var lives := Expanded(PaddedWidth(rawW, margin), margin, lifeMap);
    assert Decode(rawW, rawH, margin, lifeMap)[..|lives|] == lives;
  }

  /** The top margin and the left margin of the first pattern row are dead whatever the data says. */
  lemma DecodeMargin(rawW: nat, rawH: nat, margin: nat, lifeMap: string)
    ensures var w := PaddedWidth(rawW, margin);
            var r := Decode(rawW, rawH, margin, lifeMap);
            w * margin + margin <= |r| &&
            forall k :: 0 <= k < w * margin + margin ==> !r[k]
  {
    var w := PaddedWidth(rawW, margin);
    var start := Start(w, margin);
    ExpandExtends(w, start, lifeMap);
    var lives := Expand(w, start, lifeMap).lives;
    var r := Decode(rawW, rawH, margin, lifeMap);
    assert r[..|lives|] == lives;
    forall k | 0 <= k < w * margin + margin
      ensures !r[k]
    {
      assert r[k] == lives[..|start.lives|][k] == start.lives[k];
    }
  }

  /** Digits only accumulate into the pending run count. */
  lemma {:induction false} ExpandDigits(w: nat, d: Decoder, digits: string, s: string)
    requires AllDigits(d.num) && AllDigits(digits)
    ensures AllDigits(d.num + digits)
    ensures Expand(w, d, digits + s) == Expand(w, d.(num := d.num + digits), s)
    decreases |digits|
  {
    if digits == [] {
      assert digits + s == s;
      assert d.num + digits == d.num;
    } else {
      assert (digits + s)[1..] == digits[1..] + s;
      assert d.num + [digits[0]] + digits[1..] == d.num + digits;
      ExpandDigits(w, d.(num := d.num + [digits[0]]), digits[1..], s);
    }
  }

  /**
   * `<count><tag>` with `tag` `b` or `o` appends `count` cells of that
   * kind (one when the count is omitted) and moves on in the row.
   */
  lemma Run(w: nat, lives: seq<bool>, rows: nat, digits: string, tag: char, s: string)
    requires AllDigits(digits) && (tag == 'b' || tag == 'o')
    ensures var n := RunCount(digits);
            Expand(w, Decoder(lives, "", rows), digits + [tag] + s) ==
            Expand(w, Decoder(lives + Cells(IsAlive(tag), n), "", rows + n), s)
  {
    var d := Decoder(lives, "", rows);
    ExpandDigits(w, d, digits, [tag] + s);
    assert digits + [tag] + s == digits + ([tag] + s);
    assert "" + digits == digits;
    assert ([tag] + s)[1..] == s;
  }

  /** The format's first illustration: `12b` is twelve dead cells. */
  lemma TwelveDead(w: nat, lives: seq<bool>, rows: nat, s: string)
    ensures Expand(w, Decoder(lives, "", rows), "12b" + s) ==
            Expand(w, Decoder(lives + Cells(false, 12), "", rows + 12), s)
  {
    assert DecimalValue("1") == 1;
    assert RunCount("12") == 12;
    assert "12" + ['b'] + s == "12b" + s;
    Run(w, lives, rows, "12", 'b', s);
  }

  /** The format's second illustration: `2ob` is two live cells and a dead one. */
  lemma TwoLiveOneDead(w: nat, lives: seq<bool>, rows: nat, s: string)
    ensures Expand(w, Decoder(lives, "", rows), "2ob" + s) ==
            Expand(w, Decoder(lives + [true, true, false], "", rows + 3), s)
  {
    var d0, d1 := Decoder(lives, "", rows), Decoder(lives, "2", rows);
    var d2 := Decoder(lives + [true, true], "", rows + 2);
    var d3 := Decoder(lives + [true, true, false], "", rows + 3);
    assert Expand(w, d0, "2ob" + s) == Expand(w, d1, "ob" + s) by {
      assert ("2ob" + s)[0] == '2' && ("2ob" + s)[1..] == "ob" + s;
      ExpandFeed(w, d0, "2ob" + s);
    }
    assert Expand(w, d1, "ob" + s) == Expand(w, d2, "b" + s) by {
      assert ("ob" + s)[0] == 'o' && ("ob" + s)[1..] == "b" + s;
      assert RunCount("2") == 2 && Cells(true, 2) == [true, true];
      ExpandFeed(w, d1, "ob" + s);
    }
    assert Expand(w, d2, "b" + s) == Expand(w, d3, s) by {
      assert ("b" + s)[0] == 'b' && ("b" + s)[1..] == s;
      assert Cells(false, 1) == [false];
      assert lives + [true, true] + [false] == lives + [true, true, false];
      ExpandFeed(w, d2, "b" + s);
    }
  }

  /**
   * `<count>$` closes the current row and skips `count - 1` blank rows: the
   * next row starts `count` rows below the start of the current one, in the
   * same column, as long as the current row did not overflow the width.
   */
  lemma RowEnd(w: nat, d: Decoder)
    requires AllDigits(d.num) && d.rows <= w && d.rows <= |d.lives|
    ensures var n := RunCount(d.num);
            var d' := Feed(w, d, '$');
            d'.num == "" && d'.rows == 0 &&
            |d'.lives| == |d.lives| - d.rows + w * (if n > 1 then n else 1) &&
            (forall k :: |d.lives| <= k < |d'.lives| ==> !d'.lives[k]) &&
            (w > 0 ==> |d'.lives| % w == (|d.lives| - d.rows) % w)
  {
    var n := RunCount(d.num);
    var d' := Feed(w, d, '$');
    var m := if n > 1 then n else 1;
    assert w * m == w + w * (m - 1);
    assert |d'.lives| == |d.lives| - d.rows + w * m;
    if w > 0 {
      ModMultiple(|d.lives| - d.rows, w, m);
    }
  }

  /** Adding whole rows keeps the column. */
  lemma ModMultiple(a: nat, w: nat, m: nat)
    requires w > 0
    ensures (a + w * m) % w == a % w
  {
    var q, r := a / w, a % w;
    assert a == w * q + r;
    assert a + w * m == w * (q + m) + r by {
      assert w * (q + m) == w * q + w * m;
    }
    W.IndexDecompose(w, r, q + m);
  }

  /** Everything from the first `!` on is ignored. */
  lemma {:induction false} BangEnds(w: nat, d: Decoder, s: string, rest: string)
    requires AllDigits(d.num) && '!' !in s
    ensures Expand(w, d, s + "!" + rest) == Expand(w, d, s)
    decreases |s|
  {
    if s == [] {
      assert s + "!" + rest == "!" + rest;
    } else {
      assert (s + "!" + rest)[1..] == s[1..] + "!" + rest;
      BangEnds(w, Feed(w, d, s[0]), s[1..], rest);
    }
  }

  /** A character that is no digit, tag, `$` or `!` is skipped wherever it appears. */
  lemma {:induction false} OtherIgnored(w: nat, d: Decoder, a: string, c: char, b: string)
    requires AllDigits(d.num) && '!' !in a
    requires !IsDigit(c) && c !in "bo$!"
    ensures Expand(w, d, a + [c] + b) == Expand(w, d, a + b)
    decreases |a|
  {
    if a == [] {
      assert a + [c] + b == [c] + b;
      assert ([c] + b)[1..] == b;
      assert a + b == b;
    } else {
      assert (a + [c] + b)[1..] == a[1..] + [c] + b;
      assert (a + b)[1..] == a[1..] + b;
      OtherIgnored(w, Feed(w, d, a[0]), a[1..], c, b);
    }
  }

  /** The first pattern row starts in column `margin`, past the top margin. */
  lemma FirstRowColumn(w: nat, margin: nat)
    requires margin < w
    ensures |Start(w, margin).lives| % w == margin
    ensures |Start(w, margin).lives| / w == margin
  {
    W.IndexDecompose(w, margin, margin);
  }

  /** The current row of `d` started in column `margin` of a `w`-wide field. */
  ghost predicate Aligned(w: nat, margin: nat, d: Decoder)
  {
    w > 0 && d.rows <= |d.lives| && (|d.lives| - d.rows) % w == margin
  }

  /** Fed from `d`, the data `s` never ends a row longer than `w` cells with `$`. */
  ghost predicate RowsFit(w: nat, d: Decoder, s: string)
    requires AllDigits(d.num)
    decreases |s|
  {
    s == [] || s[0] == '!' ||
    ((s[0] == '$' ==> d.rows <= w) && RowsFit(w, Feed(w, d, s[0]), s[1..]))
  }

  /** One character keeps the alignment, unless it is a `$` ending an overlong row. */
  lemma FeedAligned(w: nat, margin: nat, d: Decoder, c: char)
    requires AllDigits(d.num) && Aligned(w, margin, d) && (c == '$' ==> d.rows <= w)
    ensures Aligned(w, margin, Feed(w, d, c))
  {
    if c == '$' {
      RowEnd(w, d);
    }
  }

  /** Data whose rows fit the width keeps every row aligned to the same column. */
  lemma {:induction false} ExpandAligned(w: nat, margin: nat, d: Decoder, s: string)
    requires AllDigits(d.num) && Aligned(w, margin, d) && RowsFit(w, d, s)
    ensures Aligned(w, margin, Expand(w, d, s))
    decreases |s|
  {
    if s != [] && s[0] != '!' {
      FeedAligned(w, margin, d, s[0]);
      ExpandAligned(w, margin, Feed(w, d, s[0]), s[1..]);
    }
  }

  /**
   * When no row of the data is longer than the field, every row starts in
   * column `margin`, just inside the left margin: after any data, the current
   * row began there, and after a `$` the next cell is there.
   */
  lemma RowsStartAtMargin(w: nat, margin: nat, s: string)
    requires margin < w && RowsFit(w, Start(w, margin), s)
    ensures var d := Expand(w, Start(w, margin), s);
            d.rows <= |d.lives| && (|d.lives| - d.rows) % w == margin
    ensures var d := Expand(w, Start(w, margin), s);
            d.rows == 0 ==> |d.lives| % w == margin
  {
    FirstRowColumn(w, margin);
    ExpandAligned(w, margin, Start(w, margin), s);
  }

  /** A row longer than the field is not padded, so the next row starts in another column. */
  lemma OverlongRow()
    ensures var d := Expand(4, Start(4, 0), "5o$");
            d.rows == 0 && |d.lives| == 5 && |d.lives| % 4 == 1
  {
    var d0 := Start(4, 0);
    assert d0 == Decoder([], "", 0);
    var d1 := Feed(4, d0, '5');
    assert d1 == Decoder([], "5", 0);
    assert RunCount("5") == 5;
    var d2 := Feed(4, d1, 'o');
    assert |d2.lives| == 5 && d2.rows == 5 && d2.num == "";
    var d3 := Feed(4, d2, '$');
    assert |d3.lives| == 5 && d3.rows == 0;
    ExpandFeed(4, d0, "5o$");
    assert "5o$"[1..] == "o$";
    ExpandFeed(4, d1, "o$");
    assert "o$"[1..] == "$";
    ExpandFeed(4, d2, "$");
    assert "$"[1..] == "";
  }
}
