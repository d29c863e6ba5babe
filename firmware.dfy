/** The building firmware's instruction parser and ball-drop interrupt
    (buildings/arduino/src/main.cpp). The parser turns a string
    `r,g,b/r,g,b/...` into the rows of a 30 x 3 integer array; the
    interrupt debounces ball-drop edges by 50 ms. */
module Firmware {
  import opened Common

  const MAX_LEDS := 30
  const RGB_VALUES := 3
  const ISR_DEBOUNCE_MS: u32 := 50

  predicate IsDigit(c: char)
  {
    '0' <= c <= '9'
  }

  /** The value of a run of decimal digits, most significant first. */
  function DecimalValue(ds: string): nat
    requires forall k :: 0 <= k < |ds| ==> IsDigit(ds[k])
  {
    if ds == [] then 0
    else
      var last := ds[|ds| - 1];
      assert IsDigit(last);
      DecimalValue(ds[..|ds| - 1]) * 10 + (last as int - '0' as int) as nat
  }

  /** Length of the digit run that starts `s`. */
  function DigitRun(s: string): (n: nat)
    requires s != [] && IsDigit(s[0])
    ensures 1 <= n <= |s|
    ensures forall k :: 0 <= k < n ==> IsDigit(s[k])
    ensures n == |s| || !IsDigit(s[n])
  {
    if |s| > 1 && IsDigit(s[1]) then 1 + DigitRun(s[1..]) else 1
  }

  /** Where a scan ends: the last LED index reached, the cells written
      (keyed by LED and component), and how many characters were left
      unread because the scan stopped early. */
  datatype Scanned = Scanned(led: int, cells: map<(int, int), int>, unread: nat)

  /** Cell keys inside the 30 x 3 array. */
  predicate InArray(k: (int, int))
  {
    0 <= k.0 < MAX_LEDS && 0 <= k.1 < RGB_VALUES
  }

  /** The parser's walk over the unread input `s` with current LED `led`
      and component `rgb`: '/' moves to the next LED and component 0 and
      stops the walk at the 30th; ',' moves to the next component and
      stops the walk at a fourth; a digit run is stored as its value in the
      current cell; any other character is skipped. The LED index only
      grows, never past 30. */
  function Scan(s: string, led: int, rgb: int, cells: map<(int, int), int>): (r: Scanned)
    requires 0 <= led < MAX_LEDS && 0 <= rgb < RGB_VALUES
    ensures led <= r.led <= MAX_LEDS
    ensures r.unread <= |s|
    decreases |s|
  {
    if s == [] then Scanned(led, cells, 0)
    else if s[0] == '/' then
      if led + 1 >= MAX_LEDS then Scanned(led + 1, cells, |s|)
      else Scan(s[1..], led + 1, 0, cells)
    else if s[0] == ',' then
      if rgb + 1 >= RGB_VALUES then Scanned(led, cells, |s|)
      else Scan(s[1..], led, rgb + 1, cells)
    else if IsDigit(s[0]) then
      var n := DigitRun(s);
      Scan(s[n..], led, rgb, cells[(led, rgb) := DecimalValue(s[..n])])
    else Scan(s[1..], led, rgb, cells)
  }

  /** Every write of the walk lands inside the 30 x 3 array. */
  lemma {:induction false} ScanWritesInArray(s: string, led: int, rgb: int, cells: map<(int, int), int>)
    requires 0 <= led < MAX_LEDS && 0 <= rgb < RGB_VALUES
    ensures forall k :: k in Scan(s, led, rgb, cells).cells ==> k in cells || InArray(k)
    decreases |s|
  {
    if s == [] {
    } else if s[0] == '/' {
      if led + 1 < MAX_LEDS {
        ScanWritesInArray(s[1..], led + 1, 0, cells);
      }
    } else if s[0] == ',' {
      if rgb + 1 < RGB_VALUES {
        ScanWritesInArray(s[1..], led, rgb + 1, cells);
      }
    } else if IsDigit(s[0]) {
      var n := DigitRun(s);
      ScanWritesInArray(s[n..], led, rgb, cells[(led, rgb) := DecimalValue(s[..n])]);
    } else {
      ScanWritesInArray(s[1..], led, rgb, cells);
    }
  }

  /** What `parseLEDString` computes: `numLeds` and the cells it writes. */
  datatype Parsed = Parsed(numLeds: int, cells: map<(int, int), int>)

  /** `parseLEDString` as written: `numLeds` is one more than the final LED
      index, so it lies between 1 and 31; every written cell is inside the
      array; the empty string gives one LED and writes nothing. */
  function ParseLed(s: string): (p: Parsed)
    ensures 1 <= p.numLeds <= MAX_LEDS + 1
    ensures forall k :: k in p.cells ==> InArray(k)
    ensures s == [] ==> p == Parsed(1, map[])
  {
    ScanWritesInArray(s, 0, 0, map[]);
    var r := Scan(s, 0, 0, map[]);
    Parsed(r.led + 1, r.cells)
  }

  /** Characters other than digits write nothing: a string without digits
      leaves every cell as it was. */
  lemma {:induction false} NoDigitsNoWrites(s: string, led: int, rgb: int, cells: map<(int, int), int>)
    requires 0 <= led < MAX_LEDS && 0 <= rgb < RGB_VALUES
    requires forall k :: 0 <= k < |s| ==> !IsDigit(s[k])
    ensures Scan(s, led, rgb, cells).cells == cells
    decreases |s|
  {
    if s != [] {
      if s[0] == '/' {
        if led + 1 < MAX_LEDS {
          NoDigitsNoWrites(s[1..], led + 1, 0, cells);
        }
      } else if s[0] == ',' {
        if rgb + 1 < RGB_VALUES {
          NoDigitsNoWrites(s[1..], led, rgb + 1, cells);
        }
      } else {
        NoDigitsNoWrites(s[1..], led, rgb, cells);
      }
    }
  }

  /** The LED index advances once per '/' read: at most by the number of
      '/' in `s`, and exactly by it when the walk reads all of `s`, which
      it then ends below 30. */
  lemma {:induction false} ScanCountsSeparators(s: string, led: int, rgb: int, cells: map<(int, int), int>)
    requires 0 <= led < MAX_LEDS && 0 <= rgb < RGB_VALUES
    ensures Scan(s, led, rgb, cells).led - led <= multiset(s)['/']
    ensures Scan(s, led, rgb, cells).unread == 0 ==>
              Scan(s, led, rgb, cells).led - led == multiset(s)['/']
              && Scan(s, led, rgb, cells).led < MAX_LEDS
    decreases |s|
  {
    if s != [] {
      assert s[0..] == s;
      if s[0] == '/' {
        SlashCountHead(s);
        ScanAtSlash(s, 0, led, rgb, cells);
        if led + 1 < MAX_LEDS {
          ScanCountsSeparators(s[1..], led + 1, 0, cells);
        }
      } else if s[0] == ',' {
        SlashCountHead(s);
        ScanAtComma(s, 0, led, rgb, cells);
        if rgb + 1 < RGB_VALUES {
          ScanCountsSeparators(s[1..], led, rgb + 1, cells);
        }
      } else if IsDigit(s[0]) {
        var n := DigitRun(s);
        NoSlashInRun(s, n);
        ScanAtDigit(s, 0, n, DecimalValue(s[..n]), led, rgb, cells);
        ScanCountsSeparators(s[n..], led, rgb, cells[(led, rgb) := DecimalValue(s[..n])]);
      } else {
        SlashCountHead(s);
        ScanAtOther(s, 0, led, rgb, cells);
        ScanCountsSeparators(s[1..], led, rgb, cells);
      }
    }
  }

  /** The first character of `s` adds one '/' or none to the rest. */
  lemma SlashCountHead(s: string)
    requires s != []
    ensures multiset(s)['/'] == multiset(s[1..])['/'] + if s[0] == '/' then 1 else 0
  {
    assert s == [s[0]] + s[1..];
    assert multiset(s) == multiset{s[0]} + multiset(s[1..]);
  }

  lemma NoSlashInRun(s: string, n: nat)
    requires n <= |s| && forall k :: 0 <= k < n ==> IsDigit(s[k])
    ensures multiset(s)['/'] == multiset(s[n..])['/']
  {
    assert s == s[..n] + s[n..];
    assert multiset(s) == multiset(s[..n]) + multiset(s[n..]);
    assert '/' !in multiset(s[..n]) by {
      assert forall k :: 0 <= k < n ==> s[..n][k] != '/';
    }
  }

  /** A walk that stops at a '/' has reached LED index 30. */
  lemma {:induction false} ScanStopsAtCap(s: string, led: int, rgb: int, cells: map<(int, int), int>)
    requires 0 <= led < MAX_LEDS && 0 <= rgb < RGB_VALUES
    ensures var r := Scan(s, led, rgb, cells);
            r.unread > 0 && s[|s| - r.unread] == '/' ==> r.led == MAX_LEDS
    decreases |s|
  {
    if s != [] {
      if s[0] == '/' {
        if led + 1 < MAX_LEDS {
          ScanStopsAtCap(s[1..], led + 1, 0, cells);
        }
      } else if s[0] == ',' {
        if rgb + 1 < RGB_VALUES {
          ScanStopsAtCap(s[1..], led, rgb + 1, cells);
        }
      } else if IsDigit(s[0]) {
        var n := DigitRun(s);
        ScanStopsAtCap(s[n..], led, rgb, cells[(led, rgb) := DecimalValue(s[..n])]);
      } else {
        ScanStopsAtCap(s[1..], led, rgb, cells);
      }
    }
  }

  /** A parse that reads the whole input counts one LED per '/', and one
      that stops at a '/' has hit the cap: `numLeds` is the number of '/'
      plus one, capped at 31, whenever no group has a fourth component. */
  lemma LedCountFollowsSeparators(s: string)
    ensures ParseLed(s).numLeds <= multiset(s)['/'] + 1
    ensures var r := Scan(s, 0, 0, map[]);
            && (r.unread == 0 ==> ParseLed(s).numLeds == multiset(s)['/'] + 1 <= MAX_LEDS)
            && (r.unread > 0 && s[|s| - r.unread] == '/' ==> ParseLed(s).numLeds == MAX_LEDS + 1)
  {
    ScanCountsSeparators(s, 0, 0, map[]);
    ScanStopsAtCap(s, 0, 0, map[]);
  }

  /** Once the walk stops early, whatever follows the input is never
      read: a fourth component or a 30th LED ends the whole parse. */
  lemma {:induction false} StopIgnoresRest(s: string, t: string, led: int, rgb: int,
                                           cells: map<(int, int), int>)
    requires 0 <= led < MAX_LEDS && 0 <= rgb < RGB_VALUES
    requires Scan(s, led, rgb, cells).unread > 0
    ensures Scan(s + t, led, rgb, cells).led == Scan(s, led, rgb, cells).led
    ensures Scan(s + t, led, rgb, cells).cells == Scan(s, led, rgb, cells).cells
    decreases |s|
  {
    assert (s + t)[0] == s[0];
    var c := s[0];
    if c == '/' {
      if led + 1 < MAX_LEDS {
        assert (s + t)[1..] == s[1..] + t;
        StopIgnoresRest(s[1..], t, led + 1, 0, cells);
      }
    } else if c == ',' {
      if rgb + 1 < RGB_VALUES {
        assert (s + t)[1..] == s[1..] + t;
        StopIgnoresRest(s[1..], t, led, rgb + 1, cells);
      }
    } else if IsDigit(c) {
      var n := DigitRun(s);
      var rest := s[n..];
      var cells' := cells[(led, rgb) := DecimalValue(s[..n])];
      if n == |s| {
        assert false;
      }
      assert DigitRun(s + t) == n by {
        DigitRunExtends(s, t);
      }
      assert (s + t)[..n] == s[..n];
      assert (s + t)[n..] == rest + t;
      StopIgnoresRest(rest, t, led, rgb, cells');
    } else {
      assert (s + t)[1..] == s[1..] + t;
      StopIgnoresRest(s[1..], t, led, rgb, cells);
    }
  }

  /** A digit run that ends inside `s` ends at the same place in `s + t`. */
  lemma {:induction false} DigitRunExtends(s: string, t: string)
    requires s != [] && IsDigit(s[0]) && DigitRun(s) < |s|
    ensures DigitRun(s + t) == DigitRun(s)
    decreases |s|
  {
    if |s| > 1 && IsDigit(s[1]) {
      assert (s + t)[1..] == s[1..] + t;
      DigitRunExtends(s[1..], t);
    }
  }

  // ---------------------------------------------------------------------
  // The parser on the firmware's array

  /** The parser's inner loop: read the digit run starting at `i` and
      return its value and the index just past it. */
  method ReadNumber(input: string, i: nat) returns (value: int, next: nat)
    requires i < |input| && IsDigit(input[i])
    ensures next == i + DigitRun(input[i..])
    ensures value == DecimalValue(input[i..next])
  {
    var j := i;
    value := (input[i] as int - '0' as int);
    assert input[i..j + 1] == [input[i]];
    assert DecimalValue(input[i..j + 1]) == DecimalValue([]) * 10 + value;
    while j + 1 < |input| && IsDigit(input[j + 1])
      invariant i <= j < |input|
      invariant forall k :: i <= k <= j ==> IsDigit(input[k])
      invariant value == DecimalValue(input[i..j + 1])
    {
      assert input[i..j + 2][..j + 1 - i] == input[i..j + 1];
      value := value * 10 + (input[j + 1] as int - '0' as int);
      j := j + 1;
    }
    next := j + 1;
    ghost var run := input[i..];
    assert forall k :: 0 <= k < next - i ==> IsDigit(run[k]);
    assert next - i == |run| || !IsDigit(run[next - i]);
    DigitRunUnique(run, next - i);
  }

  /** The digit run is the only prefix of digits followed by a non-digit
      or the end. */
  lemma DigitRunUnique(s: string, n: nat)
    requires s != [] && IsDigit(s[0]) && 1 <= n <= |s|
    requires forall k :: 0 <= k < n ==> IsDigit(s[k])
    requires n == |s| || !IsDigit(s[n])
    ensures DigitRun(s) == n
  {
  }
  // ---------------------------------------------------------------------

  /** A '/' in the walk moves to the next LED, or stops at the 30th. */
  lemma ScanAtSlash(s: string, i: nat, led: int, rgb: int, cells: map<(int, int), int>)
    requires i < |s| && s[i] == '/' && 0 <= led < MAX_LEDS && 0 <= rgb < RGB_VALUES
    ensures Scan(s[i..], led, rgb, cells) ==
              if led + 1 >= MAX_LEDS then Scanned(led + 1, cells, |s| - i) else Scan(s[i + 1..], led + 1, 0, cells)
  {
    assert s[i..][1..] == s[i + 1..];
  }

  /** A ',' in the walk moves to the next component, or stops at a fourth. */
  lemma ScanAtComma(s: string, i: nat, led: int, rgb: int, cells: map<(int, int), int>)
    requires i < |s| && s[i] == ',' && 0 <= led < MAX_LEDS && 0 <= rgb < RGB_VALUES
    ensures Scan(s[i..], led, rgb, cells) ==
              if rgb + 1 >= RGB_VALUES then Scanned(led, cells, |s| - i) else Scan(s[i + 1..], led, rgb + 1, cells)
  {
    assert s[i..][1..] == s[i + 1..];
  }

  /** A digit run in the walk is stored whole in the current cell. */
  lemma ScanAtDigit(s: string, i: nat, next: nat, v: int, led: int, rgb: int, cells: map<(int, int), int>)
    requires i < |s| && IsDigit(s[i]) && 0 <= led < MAX_LEDS && 0 <= rgb < RGB_VALUES
    requires next == i + DigitRun(s[i..]) && v == DecimalValue(s[i..next])
    ensures Scan(s[i..], led, rgb, cells) == Scan(s[next..], led, rgb, cells[(led, rgb) := v])
  {
    assert s[i..][..next - i] == s[i..next];
    assert s[i..][next - i..] == s[next..];
  }

  /** Any other character is skipped. */
  lemma ScanAtOther(s: string, i: nat, led: int, rgb: int, cells: map<(int, int), int>)
    requires i < |s| && s[i] != '/' && s[i] != ',' && !IsDigit(s[i])
    requires 0 <= led < MAX_LEDS && 0 <= rgb < RGB_VALUES
    ensures Scan(s[i..], led, rgb, cells) == Scan(s[i + 1..], led, rgb, cells)
  {
    assert s[i..][1..] == s[i + 1..];
  }

  /** `parseLEDString`: walks the input once, with an inner loop over each
      digit run, writing into `ledArray` in place. The cells it writes and
      `numLeds` are those of `ParseLed`; every other cell keeps its value. */
  method ParseLedString(input: string, ledArray: array2<int>) returns (numLeds: int)
    requires ledArray.Length0 == MAX_LEDS && ledArray.Length1 == RGB_VALUES
    modifies ledArray
    ensures numLeds == ParseLed(input).numLeds
    ensures forall l, c :: 0 <= l < MAX_LEDS && 0 <= c < RGB_VALUES ==>
              ledArray[l, c] == if (l, c) in ParseLed(input).cells
                                then ParseLed(input).cells[(l, c)]
                                else old(ledArray[l, c])
  {
    var ledIndex := 0;
    var rgbIndex := 0;
    ghost var written: map<(int, int), int> := map[];
    ghost var target := Scan(input, 0, 0, map[]);
    var i := 0;
    while i < |input|
      invariant 0 <= i <= |input|
      invariant 0 <= ledIndex < MAX_LEDS && 0 <= rgbIndex < RGB_VALUES
      invariant Scan(input[i..], ledIndex, rgbIndex, written) == target
      invariant forall l, c :: 0 <= l < MAX_LEDS && 0 <= c < RGB_VALUES ==>
                  ledArray[l, c] == if (l, c) in written then written[(l, c)] else old(ledArray[l, c])
    {
      var c := input[i];
      if c == '/' {
        ScanAtSlash(input, i, ledIndex, rgbIndex, written);
        ledIndex := ledIndex + 1;
        rgbIndex := 0;
        if ledIndex >= MAX_LEDS {
          numLeds := ledIndex + 1;
          return;
        }
      } else if c == ',' {
        ScanAtComma(input, i, ledIndex, rgbIndex, written);
        rgbIndex := rgbIndex + 1;
        if rgbIndex >= RGB_VALUES {
          numLeds := ledIndex + 1;
          return;
        }
      } else if IsDigit(c) {
        var value, next := ReadNumber(input, i);
        ScanAtDigit(input, i, next, value, ledIndex, rgbIndex, written);
        i := next - 1;
        ledArray[ledIndex, rgbIndex] := value;
        written := written[(ledIndex, rgbIndex) := value];
      } else {
        ScanAtOther(input, i, ledIndex, rgbIndex, written);
      }
      i := i + 1;
    }
    assert input[i..] == [];
    numLeds := ledIndex + 1;
  }

  // ---------------------------------------------------------------------
  // The message format, and the LED count it yields
  // ---------------------------------------------------------------------

  function DigitChar(d: nat): char
    requires d < 10
  {
    ('0' as int + d) as char
  }

  /** Decimal text of a natural number, without leading zeros. */
  function Decimal(v: nat): (ds: string)
    ensures ds != [] && forall k :: 0 <= k < |ds| ==> IsDigit(ds[k])
  {
    if v < 10 then [DigitChar(v)] else Decimal(v / 10) + [DigitChar(v % 10)]
  }

  /** Reading the decimal text of `v` gives `v`. */
  lemma {:induction false} DecimalRoundTrip(v: nat)
    ensures DecimalValue(Decimal(v)) == v
  {
    if v >= 10 {
      DecimalRoundTrip(v / 10);
      var ds := Decimal(v);
      assert ds[..|ds| - 1] == Decimal(v / 10);
    }
  }

  /** A pixel with non-negative components. */
  predicate Sendable(p: Rgb)
  {
    p.r >= 0 && p.g >= 0 && p.b >= 0
  }

  /** One pixel as `r,g,b`. */
  function EncodePixel(p: Rgb): string
    requires Sendable(p)
  {
    Decimal(p.r) + [','] + Decimal(p.g) + [','] + Decimal(p.b)
  }

  /** A strip in the format of the sample messages in `LEDdisplay`: every
      pixel's group followed by '/'. */
  function EncodeStrip(px: seq<Rgb>): string
    requires forall k :: 0 <= k < |px| ==> Sendable(px[k])
  {
    if px == [] then [] else EncodePixel(px[0]) + ['/'] + EncodeStrip(px[1..])
  }

  /** The cells of pixels `px` written from LED `led` on. */
  function Put(cells: map<(int, int), int>, led: int, px: seq<Rgb>): map<(int, int), int>
    decreases |px|
  {
    if px == [] then cells
    else Put(cells[(led, 0) := px[0].r][(led, 1) := px[0].g][(led, 2) := px[0].b], led + 1, px[1..])
  }

  /** What `Put` holds: the pixels' components on their rows, and the
      older cells elsewhere. */
  lemma {:induction false} PutContents(cells: map<(int, int), int>, led: int, px: seq<Rgb>, k: (int, int))
    ensures k.0 >= led && k.0 < led + |px| && 0 <= k.1 < RGB_VALUES ==>
              k in Put(cells, led, px)
              && Put(cells, led, px)[k] == Component(px[k.0 - led], k.1)
    ensures !(k.0 >= led && k.0 < led + |px| && 0 <= k.1 < RGB_VALUES) ==>
              (k in Put(cells, led, px) <==> k in cells)
              && (k in cells ==> Put(cells, led, px)[k] == cells[k])
    decreases |px|
  {
    if px != [] {
      PutContents(cells[(led, 0) := px[0].r][(led, 1) := px[0].g][(led, 2) := px[0].b],
                  led + 1, px[1..], k);
      if k.0 > led && k.0 < led + |px| {
        assert px[1..][k.0 - (led + 1)] == px[k.0 - led];
      }
    }
  }

  /** Component `c` of a pixel in the message's order r, g, b. */
  function Component(p: Rgb, c: int): int
  {
    if c == 0 then p.r else if c == 1 then p.g else p.b
  }

  /** A number followed by a non-digit is stored whole in the current cell. */
  lemma ScanNumber(v: nat, rest: string, led: int, rgb: int, cells: map<(int, int), int>)
    requires 0 <= led < MAX_LEDS && 0 <= rgb < RGB_VALUES
    requires rest != [] && !IsDigit(rest[0])
    ensures Scan(Decimal(v) + rest, led, rgb, cells) == Scan(rest, led, rgb, cells[(led, rgb) := v])
  {
    var s := Decimal(v) + rest;
    var n := |Decimal(v)|;
    assert DigitRun(s) == n by {
      assert forall k :: 0 <= k < n ==> IsDigit(s[k]);
      assert !IsDigit(s[n]);
    }
    assert s[..n] == Decimal(v);
    assert s[n..] == rest;
    DecimalRoundTrip(v);
  }

  /** A ',' before the third component moves to the next component. */
  lemma ScanComma(rest: string, led: int, rgb: int, cells: map<(int, int), int>)
    requires 0 <= led < MAX_LEDS && 0 <= rgb < RGB_VALUES - 1
    ensures Scan([','] + rest, led, rgb, cells) == Scan(rest, led, rgb + 1, cells)
  {
    assert ([','] + rest)[1..] == rest;
  }

  /** A '/' moves to the next LED's first component, or stops at the 30th. */
  lemma ScanSlash(rest: string, led: int, rgb: int, cells: map<(int, int), int>)
    requires 0 <= led < MAX_LEDS && 0 <= rgb < RGB_VALUES
    ensures Scan(['/'] + rest, led, rgb, cells) ==
              if led + 1 >= MAX_LEDS then Scanned(led + 1, cells, |rest| + 1)
              else Scan(rest, led + 1, 0, cells)
  {
    assert (['/'] + rest)[1..] == rest;
  }

  /** One group followed by '/' writes the three components on the
      current LED and moves to the next, or stops at the 30th. */
  lemma ScanGroup(p: Rgb, rest: string, led: int, cells: map<(int, int), int>)
    requires Sendable(p) && 0 <= led < MAX_LEDS
    ensures var cells' := cells[(led, 0) := p.r][(led, 1) := p.g][(led, 2) := p.b];
            Scan(EncodePixel(p) + ['/'] + rest, led, 0, cells) ==
              if led + 1 >= MAX_LEDS then Scanned(led + 1, cells', |rest| + 1)
              else Scan(rest, led + 1, 0, cells')
  {
    var c1 := cells[(led, 0) := p.r];
    var c2 := c1[(led, 1) := p.g];
    var c3 := c2[(led, 2) := p.b];
    var tail := ['/'] + rest;
    var b := Decimal(p.b) + tail;
    var gb := Decimal(p.g) + ([','] + b);
    assert EncodePixel(p) + ['/'] + rest == Decimal(p.r) + ([','] + gb);
    ScanNumber(p.r, [','] + gb, led, 0, cells);
    ScanComma(gb, led, 0, c1);
    ScanNumber(p.g, [','] + b, led, 1, c1);
    ScanComma(b, led, 1, c2);
    ScanNumber(p.b, tail, led, 2, c2);
    ScanSlash(rest, led, 2, c3);
  }

  /** The first pixel of an encoded strip: its group is written on LED
      `led`, and the walk goes on with the rest of the strip from the next
      LED, or stops at the 30th; `Put` takes the same first step. */
  lemma StripHead(px: seq<Rgb>, led: int, cells: map<(int, int), int>)
    requires forall k :: 0 <= k < |px| ==> Sendable(px[k])
    requires px != [] && 0 <= led < MAX_LEDS
    ensures var cells' := cells[(led, 0) := px[0].r][(led, 1) := px[0].g][(led, 2) := px[0].b];
            && Scan(EncodeStrip(px), led, 0, cells) ==
                 (if led + 1 >= MAX_LEDS then Scanned(led + 1, cells', |EncodeStrip(px[1..])| + 1)
                  else Scan(EncodeStrip(px[1..]), led + 1, 0, cells'))
            && Put(cells, led, px) == Put(cells', led + 1, px[1..])
  {
    assert EncodeStrip(px) == EncodePixel(px[0]) + ['/'] + EncodeStrip(px[1..]);
    ScanGroup(px[0], EncodeStrip(px[1..]), led, cells);
  }

  /** Scanning an encoded strip of `px` from LED `led`, when the strip fits:
      each pixel lands on its row, and the '/' after the pixel on row 29
      stops the walk at LED index 30. */
  lemma {:induction false} ScanStrip(px: seq<Rgb>, led: int, cells: map<(int, int), int>)
    requires forall k :: 0 <= k < |px| ==> Sendable(px[k])
    requires 0 <= led < MAX_LEDS && led + |px| <= MAX_LEDS
    ensures Scan(EncodeStrip(px), led, 0, cells).led == led + |px|
    ensures Scan(EncodeStrip(px), led, 0, cells).cells == Put(cells, led, px)
    decreases |px|
  {
    if px != [] {
      StripHead(px, led, cells);
      if led + 1 < MAX_LEDS {
        ScanStrip(px[1..], led + 1, cells[(led, 0) := px[0].r][(led, 1) := px[0].g][(led, 2) := px[0].b]);
      } else {
        assert px[1..] == [];
      }
    }
  }

  /** As written, a message of `n` pixels in the sample format gives
      `numLeds == n + 1` for every `n` up to 30: each pixel lands on its row,
      and the count takes the empty group after the last '/' as a pixel.
      For the 30-pixel sample this is 31, one more row than the array has,
      and `LEDdisplay` reads `ledArray[30]`. */
  lemma TerminatedStripOvercounts(px: seq<Rgb>)
    requires forall k :: 0 <= k < |px| ==> Sendable(px[k])
    requires |px| <= MAX_LEDS
    ensures ParseLed(EncodeStrip(px)).numLeds == |px| + 1
    ensures ParseLed(EncodeStrip(px)).cells == Put(map[], 0, px)
    ensures |px| == MAX_LEDS ==> ParseLed(EncodeStrip(px)).numLeds > MAX_LEDS
  {
    if px != [] {
      ScanStrip(px, 0, map[]);
    }
  }

  /** The LED count the display loop evidently needs: the final LED counts
      only when its group wrote a cell, so a trailing '/' adds no pixel and
      the count never exceeds the array. */
  function CountedLeds(s: string): (n: int)
    ensures 0 <= n <= MAX_LEDS
    ensures n <= ParseLed(s).numLeds
  {
    ScanWritesInArray(s, 0, 0, map[]);
    var r := Scan(s, 0, 0, map[]);
    if exists c :: 0 <= c < RGB_VALUES && (r.led, c) in r.cells then r.led + 1 else r.led
  }

  /** With the corrected count, a message of `n` pixels in the sample
      format shows exactly `n` pixels, each with its components. */
  lemma CountedStripRoundTrip(px: seq<Rgb>)
    requires forall k :: 0 <= k < |px| ==> Sendable(px[k])
    requires |px| <= MAX_LEDS
    ensures CountedLeds(EncodeStrip(px)) == |px|
    ensures forall l, c :: 0 <= l < |px| && 0 <= c < RGB_VALUES ==>
              (l, c) in ParseLed(EncodeStrip(px)).cells
              && ParseLed(EncodeStrip(px)).cells[(l, c)] == Component(px[l], c)
  {
    var s := EncodeStrip(px);
    TerminatedStripOvercounts(px);
    var r := Scan(s, 0, 0, map[]);
    assert r.led == |px| && r.cells == Put(map[], 0, px);
    PutRows(px);
  }

  /** The cells of a strip written from LED 0: its pixels on rows below
      `|px|` and nothing on row `|px|`. */
  lemma PutRows(px: seq<Rgb>)
    ensures forall c :: (|px|, c) !in Put(map[], 0, px)
    ensures forall l, c :: 0 <= l < |px| && 0 <= c < RGB_VALUES ==>
              (l, c) in Put(map[], 0, px) && Put(map[], 0, px)[(l, c)] == Component(px[l], c)
  {
    forall c
      ensures (|px|, c) !in Put(map[], 0, px)
    {
      PutContents(map[], 0, px, (|px|, c));
    }
    forall l, c | 0 <= l < |px| && 0 <= c < RGB_VALUES
      ensures (l, c) in Put(map[], 0, px) && Put(map[], 0, px)[(l, c)] == Component(px[l], c)
    {
      PutContents(map[], 0, px, (l, c));
    }
  }

  // ---------------------------------------------------------------------
  // Ball-drop interrupt
  // ---------------------------------------------------------------------

  /** The firmware's global debounce clock. */
  class BallIsr {
    var lastIsrTime: u32

    constructor ()
      ensures lastIsrTime == 0
    {
      lastIsrTime := 0;
    }

    /** `ballDetectISR` at millisecond `now`: an edge more than 50 ms after
        the last accepted one is reported ("ball") and becomes the new
        reference; any other edge changes nothing. */
    method BallDetectIsr(now: u32) returns (sent: bool)
      modifies this
      ensures sent <==> Accepts(now, old(lastIsrTime), ISR_DEBOUNCE_MS)
      ensures lastIsrTime == if sent then now else old(lastIsrTime)
    {
      sent := Sub32(now, lastIsrTime) > ISR_DEBOUNCE_MS;
      if sent {
        lastIsrTime := now;
      }
    }
  }
}
