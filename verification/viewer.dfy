/**
 * The pure part of `PastelViewer` (bellmans_bakery/viewer.py): the header
 * clock, the inventory grid, the oven block with its progress bars and
 * thumbnail rows, the queue strip and the action label. Drawing, fonts and
 * image loading are not modelled; each draw method becomes a function or
 * method returning the positions and texts it would draw.
 */
module Viewer {
  import opened Wrappers
  import opened Strings
  import opened Numeric

  // Layout constants of PastelViewer.
  const SecondsPerTick := 10
  const InventoryY := 90
  const OvensY := 230
  const QueueY := 450
  const TileX0 := 20
  const TileStepX := 176
  const TileStepY := 96
  const TilesPerRow := 5
  const OvenW := 300
  const OvenH := 170
  const OvenGap := 120
  const OvenMargin := 20
  const BlockW := 2 * OvenW + OvenGap
  const BarInset := 12
  const BarW := OvenW - 2 * BarInset
  const BarH := 12
  const ThumbSize := 50
  const ThumbStep := 38
  const ThumbY := OvensY + 82
  const AvatarX0 := 100
  const AvatarStep := 40
  const AvatarY := QueueY + 14
  const MaxAvatars := 12
  const DefaultAction := "idle"

  /** The largest element of a non-empty sequence (Python's `max` over it). */
  function SeqMax(xs: seq<int>): (m: int)
    requires |xs| > 0
    ensures forall k :: 0 <= k < |xs| ==> xs[k] <= m
    ensures m in xs
  {
    if |xs| == 1 then xs[0] else Max(xs[0], SeqMax(xs[1..]))
  }

  // ---------------------------------------------------------------- header

  /** Euclidean division by 60 is determined by quotient and remainder. */
  lemma DivMod60(a: int, q: int, r: int)
    requires a == 60 * q + r && 0 <= r < 60
    ensures a / 60 == q && a % 60 == r
  {
  }

  /** Minutes and seconds shown for tick `t`: `(t*10) // 60` and `(t*10) % 60`. */
  function Clock(t: int): (mmss: (int, int))
    ensures 60 * mmss.0 + mmss.1 == SecondsPerTick * t
    ensures mmss.1 in {0, 10, 20, 30, 40, 50}
    ensures mmss.0 == t / 6
    ensures t >= 0 ==> mmss.0 >= 0
  {
    var s := t * SecondsPerTick;
    DivMod60(s, t / 6, 10 * (t % 6));
    (s / 60, s % 60)
  }

  /** The two fields of `m + ":" + sec` can be read back from the text. */
  lemma ClockFields(m: string, sec: string)
    requires |sec| == 2
    ensures var r := m + ":" + sec;
            |r| == |m| + 3 && r[|r| - 3] == ':' && r[..|r| - 3] == m && r[|r| - 2..] == sec
  {
    var r := m + ":" + sec;
    assert r[..|m|] == m;
    assert r[|m| + 1..] == sec;
  }

  /** The `mm:ss` text of the header: both fields formatted with `:02d`; minutes are not capped. */
  function ClockText(t: nat): (r: string)
    ensures |r| >= 5 && r[|r| - 3] == ':'
    ensures AllDigits(r[..|r| - 3]) && AllDigits(r[|r| - 2..])
    ensures 60 * ParseDecimal(r[..|r| - 3]) + ParseDecimal(r[|r| - 2..]) == SecondsPerTick * t
    ensures ParseDecimal(r[|r| - 2..]) < 60
    ensures |r| == 5 <==> t < 600
  {
    var mmss := Clock(t);
    var m := TwoDigits(mmss.0);
    var sec := TwoDigits(mmss.1);
    ClockFields(m, sec);
    assert |m| == 2 <==> t < 600;
    m + ":" + sec
  }

  lemma TwoDigitsExamples()
    ensures TwoDigits(0) == "00" && TwoDigits(1) == "01" && TwoDigits(50) == "50"
    ensures TwoDigits(59) == "59" && TwoDigits(60) == "60"
  {
    assert Decimal(0) == "0" && Decimal(1) == "1";
    assert Decimal(5) == "5" && Decimal(6) == "6" && Decimal(9) == "9";
    assert Decimal(50) == Decimal(5) + "0";
    assert Decimal(59) == Decimal(5) + "9";
    assert Decimal(60) == Decimal(6) + "0";
  }

  /** The header text for tick `t` is the two padded fields of its clock. */
  lemma ClockAt(t: nat, mm: nat, ss: nat)
    requires t / 6 == mm && 10 * (t % 6) == ss
    ensures ClockText(t) == TwoDigits(mm) + ":" + TwoDigits(ss)
  {
    DivMod60(t * SecondsPerTick, mm, ss);
  }

  /** t=0 is "00:00". */
  lemma ClockStart()
    ensures ClockText(0) == "00:00"
  {
    TwoDigitsExamples();
    ClockAt(0, 0, 0);
  }

  /** t=6 is sixty simulated seconds: one minute, zero seconds. */
  lemma ClockOneMinute()
    ensures ClockText(6) == "01:00"
  {
    TwoDigitsExamples();
    ClockAt(6, 1, 0);
  }

  /** t=359 is "59:50", the last tick before the minutes reach 60. */
  lemma ClockLastTickOfHour()
    ensures ClockText(359) == "59:50"
  {
    TwoDigitsExamples();
    ClockAt(359, 59, 50);
  }

  /** Minutes are not capped: t=360 shows "60:00". */
  lemma ClockHour()
    ensures ClockText(360) == "60:00"
  {
    TwoDigitsExamples();
    ClockAt(360, 60, 0);
  }

  // ------------------------------------------------------------- inventory

  datatype Tile = Tile(x: int, y: int, count: int, price: real)

  /** Top-left corner of inventory tile `i`: five tiles per row. */
  function TileOrigin(i: nat): (int, int) {
    (TileX0 + TileStepX * (i % TilesPerRow), InventoryY + TileStepY * (i / TilesPerRow))
  }

  lemma RowStep(i: nat)
    ensures (i + 1) % 5 == 0 ==> (i + 1) / 5 == i / 5 + 1 && i % 5 == 4
    ensures (i + 1) % 5 != 0 ==> (i + 1) / 5 == i / 5 && (i + 1) % 5 == i % 5 + 1
  {
  }

  /** Tile `i` sits at `TileOrigin(i)` with the item's count and its price (0 without prices). */
  predicate TilesShow(inventory: seq<int>, prices: Option<seq<real>>, tiles: seq<Tile>) {
    && |tiles| <= |inventory|
    && (prices.Some? ==> |tiles| <= |prices.value|)
    && forall i :: 0 <= i < |tiles| ==>
         && (tiles[i].x, tiles[i].y) == TileOrigin(i)
         && tiles[i].count == inventory[i]
         && tiles[i].price == (if prices.Some? then prices.value[i] else 0.0)
  }

  /**
   * `draw_inventory`: one tile per item type, walking a running `x`/`y`
   * that wraps after every fifth tile. A missing `prices_today` shows 0.
   */
  method InventoryTiles(itemCount: nat, inventory: seq<int>, prices: Option<seq<real>>)
    returns (tiles: seq<Tile>)
    requires |inventory| >= itemCount
    requires prices.Some? ==> |prices.value| >= itemCount
    ensures |tiles| == itemCount
    ensures TilesShow(inventory, prices, tiles)
  {
    var x := TileX0;
    var y := InventoryY;
    tiles := [];
    var i := 0;
    while i < itemCount
      invariant 0 <= i <= itemCount
      invariant |tiles| == i
      invariant (x, y) == TileOrigin(i)
      invariant forall j :: 0 <= j < i ==> (tiles[j].x, tiles[j].y) == TileOrigin(j)
      invariant forall j :: 0 <= j < i ==> tiles[j].count == inventory[j]
      invariant forall j :: 0 <= j < i ==>
                  tiles[j].price == (if prices.Some? then prices.value[j] else 0.0)
    {
      var price := if prices.Some? then prices.value[i] else 0.0;
      tiles := tiles + [Tile(x, y, inventory[i], price)];
      x := x + TileStepX;
      RowStep(i);
      if (i + 1) % TilesPerRow == 0 {
        x := TileX0;
        y := y + TileStepY;
      }
      i := i + 1;
    }
  }

  // ----------------------------------------------------------------- ovens

  /** One batch baking in an oven: `(item_type_index, batch_size, ticks_remaining)`. */
  datatype Batch = Batch(item: int, size: int, ticksRemaining: int)

  /** Left edge of the first oven: the two-oven block centred, kept at least 20 px from the left. */
  function OvensOrigin(width: int): (ox: int)
    ensures ox >= OvenMargin
    ensures width - BlockW - 2 * ox <= 1
    ensures ox > OvenMargin ==> width - BlockW - 2 * ox >= 0
  {
    Max(OvenMargin, (width - BlockW) / 2)
  }

  /** The normaliser computed once in `__init__`: the longest bake time of any item, in ticks. */
  function MaxBakeTicks(bakeSeconds: seq<int>): (m: int)
    requires |bakeSeconds| > 0
    ensures forall i :: 0 <= i < |bakeSeconds| ==> bakeSeconds[i] / SecondsPerTick <= m
    ensures exists i :: 0 <= i < |bakeSeconds| && m == bakeSeconds[i] / SecondsPerTick
  {
    var ticks := seq(|bakeSeconds|, i requires 0 <= i < |bakeSeconds| => bakeSeconds[i] / SecondsPerTick);
    var m := SeqMax(ticks);
    assert forall i :: 0 <= i < |bakeSeconds| ==> ticks[i] == bakeSeconds[i] / SecondsPerTick;
    m
  }

  /** The most ticks any batch in a non-empty oven still has to bake. */
  function MaxRemaining(oven: seq<Batch>): (m: int)
    requires |oven| > 0
    ensures forall j :: 0 <= j < |oven| ==> oven[j].ticksRemaining <= m
    ensures exists j :: 0 <= j < |oven| && oven[j].ticksRemaining == m
  {
    var ticks := seq(|oven|, j requires 0 <= j < |oven| => oven[j].ticksRemaining);
    var m := SeqMax(ticks);
    assert forall j :: 0 <= j < |oven| ==> ticks[j] == oven[j].ticksRemaining;
    m
  }

  function Clamp01(x: real): real {
    if x < 0.0 then 0.0 else if x > 1.0 then 1.0 else x
  }

  lemma RatioFacts(m: int, d: int)
    requires d >= 1
    ensures (m as real) / (d as real) <= 0.0 <==> m <= 0
    ensures (m as real) / (d as real) >= 1.0 <==> m >= d
  {
    var q := (m as real) / (d as real);
    assert q * (d as real) == m as real;
  }

  /**
   * Fill fraction of an oven's progress bar: empty ovens show 0; otherwise
   * `1 - max_remaining / max(1, max_bake_ticks)` clamped into [0, 1].
   */
  function Progress(oven: seq<Batch>, maxBakeTicks: int): (frac: real)
    ensures 0.0 <= frac <= 1.0
    ensures oven == [] ==> frac == 0.0
    ensures oven != [] ==>
              (frac == 1.0 <==> forall j :: 0 <= j < |oven| ==> oven[j].ticksRemaining <= 0)
    ensures oven != [] ==>
              (frac == 0.0 <==> exists j :: 0 <= j < |oven| && oven[j].ticksRemaining >= Max(1, maxBakeTicks))
  {
    if oven == [] then 0.0
    else
      var m := MaxRemaining(oven);
      RatioFacts(m, Max(1, maxBakeTicks));
      Clamp01(1.0 - (m as real) / (Max(1, maxBakeTicks) as real))
  }

  /** With every batch's remaining time within the normaliser, the clamp never acts. */
  lemma ProgressUnclamped(oven: seq<Batch>, maxBakeTicks: int)
    requires oven != [] && maxBakeTicks >= 1
    requires forall j :: 0 <= j < |oven| ==> 0 <= oven[j].ticksRemaining <= maxBakeTicks
    ensures Progress(oven, maxBakeTicks) == 1.0 - (MaxRemaining(oven) as real) / (maxBakeTicks as real)
  {
    var m := MaxRemaining(oven);
    RatioFacts(m, maxBakeTicks);
    var q := (m as real) / (maxBakeTicks as real);
    assert q * (maxBakeTicks as real) == m as real;
    assert 0.0 <= q <= 1.0;
  }

  /** An oven whose slowest batch has more left to bake never shows more progress. */
  lemma ProgressMonotone(a: seq<Batch>, b: seq<Batch>, maxBakeTicks: int)
    requires a != [] && b != []
    requires MaxRemaining(a) <= MaxRemaining(b)
    ensures Progress(b, maxBakeTicks) <= Progress(a, maxBakeTicks)
  {
    var d := Max(1, maxBakeTicks) as real;
    var qa := (MaxRemaining(a) as real) / d;
    var qb := (MaxRemaining(b) as real) / d;
    assert qa * d == MaxRemaining(a) as real;
    assert qb * d == MaxRemaining(b) as real;
    assert qa <= qb;
  }

  /** A thumbnail drawn over an oven window. */
  datatype Thumb = Thumb(item: int, x: int, y: int)

  /**
   * One thumbnail per batch, in oven order, evenly stepped, with the row
   * (`n` thumbnails overlapping by 12 px) centred on the oven of left edge `ox`.
   */
  predicate CentredRow(ox: int, oven: seq<Batch>, thumbs: seq<Thumb>) {
    && |thumbs| == |oven|
    && (forall j :: 0 <= j < |oven| ==> thumbs[j].item == oven[j].item && thumbs[j].y == ThumbY)
    && (forall j :: 0 <= j < |thumbs| ==> thumbs[j].x == thumbs[0].x + ThumbStep * j)
    && (|thumbs| > 0 ==> 2 * thumbs[0].x + ThumbStep * (|thumbs| - 1) + ThumbSize == 2 * ox + OvenW)
  }

  /** The thumbnail row of `draw_ovens`, walking a running `tx`. */
  method ThumbRow(ox: int, oven: seq<Batch>) returns (thumbs: seq<Thumb>)
    ensures CentredRow(ox, oven, thumbs)
  {
    thumbs := [];
    var n := |oven|;
    if n > 0 {
      var rowW := n * ThumbSize + (n - 1) * (ThumbStep - ThumbSize);
      assert rowW == 2 * (19 * n + 6);
      assert rowW / 2 == 19 * n + 6;
      var tx := ox + OvenW / 2 - rowW / 2;
      var first := tx;
      var j := 0;
      while j < n
        invariant 0 <= j <= n
        invariant |thumbs| == j
        invariant tx == first + ThumbStep * j
        invariant forall k :: 0 <= k < j ==> thumbs[k] == Thumb(oven[k].item, first + ThumbStep * k, ThumbY)
      {
        thumbs := thumbs + [Thumb(oven[j].item, tx, ThumbY)];
        tx := tx + ThumbStep;
        j := j + 1;
      }
    }
  }

  /** The closed form of a centred row: thumbnail `j` sits at `ox + 150 - (38n + 12) / 2 + 38j`. */
  lemma CentredRowPositions(ox: int, oven: seq<Batch>, thumbs: seq<Thumb>, j: int)
    requires CentredRow(ox, oven, thumbs)
    requires 0 <= j < |thumbs|
    ensures thumbs[j].x == ox + 150 - (38 * |oven| + 12) / 2 + 38 * j
  {
  }

  /** What `draw_ovens` draws for one oven. */
  datatype OvenView = OvenView(
    caption: string, x: int, y: int,
    barX: int, barY: int, barW: int, barH: int,
    progress: real, thumbs: seq<Thumb>)

  /**
   * Oven `k` sits 420·k px right of `OvensOrigin(width)` with caption
   * "Oven k+1", its progress fraction under the given normaliser and a
   * centred thumbnail row.
   */
  predicate OvensShow(width: int, ovens: seq<seq<Batch>>, maxBakeTicks: int, views: seq<OvenView>) {
    && |views| == |ovens|
    && forall k :: 0 <= k < |views| ==>
         && views[k].x == OvensOrigin(width) + (OvenW + OvenGap) * k && views[k].y == OvensY
         && views[k].caption == "Oven " + Decimal(k + 1)
         && views[k].progress == Progress(ovens[k], maxBakeTicks)
         && CentredRow(views[k].x, ovens[k], views[k].thumbs)
  }

  /** `draw_ovens`: ovens left to right from `OvensOrigin`, each 420 px after the previous. */
  method OvenViews(width: int, ovens: seq<seq<Batch>>, maxBakeTicks: int)
    returns (views: seq<OvenView>)
    ensures OvensShow(width, ovens, maxBakeTicks, views)
    ensures forall k :: 0 <= k < |ovens| ==>
              && views[k].barX == views[k].x + BarInset
              && views[k].barX + views[k].barW + BarInset == views[k].x + OvenW
              && views[k].barY == OvensY + OvenH + 10 && views[k].barH == BarH
  {
    var ox := OvensOrigin(width);
    views := [];
    var k := 0;
    while k < |ovens|
      invariant 0 <= k <= |ovens|
      invariant |views| == k
      invariant ox == OvensOrigin(width) + (OvenW + OvenGap) * k
      invariant forall i :: 0 <= i < k ==>
                  && views[i].x == OvensOrigin(width) + (OvenW + OvenGap) * i && views[i].y == OvensY
                  && views[i].caption == "Oven " + Decimal(i + 1)
                  && views[i].barX == views[i].x + BarInset
                  && views[i].barX + views[i].barW + BarInset == views[i].x + OvenW
                  && views[i].barY == OvensY + OvenH + 10 && views[i].barH == BarH
                  && views[i].progress == Progress(ovens[i], maxBakeTicks)
                  && CentredRow(views[i].x, ovens[i], views[i].thumbs)
    {
      var thumbs := ThumbRow(ox, ovens[k]);
      var frac := Progress(ovens[k], maxBakeTicks);
      var view := OvenView("Oven " + Decimal(k + 1), ox, OvensY,
                           ox + BarInset, OvensY + OvenH + 10, BarW, BarH, frac, thumbs);
      views := views + [view];
      ox := ox + OvenW + OvenGap;
      k := k + 1;
    }
  }

  // ----------------------------------------------------------------- queue

  /** Avatar `i` is centred at (100 + 40i, 464). */
  predicate AvatarsShow(centres: seq<(int, int)>) {
    forall i :: 0 <= i < |centres| ==> centres[i] == (AvatarX0 + AvatarStep * i, AvatarY)
  }

  /** `draw_queue`: avatar centres for the first twelve waiting customers. */
  method QueueAvatars<C>(queue: seq<C>) returns (centres: seq<(int, int)>)
    ensures |centres| == Min(|queue|, MaxAvatars)
    ensures AvatarsShow(centres)
  {
    var shown := queue[..Min(|queue|, MaxAvatars)];
    var x := AvatarX0;
    centres := [];
    var i := 0;
    while i < |shown|
      invariant 0 <= i <= |shown|
      invariant |centres| == i
      invariant x == AvatarX0 + AvatarStep * i
      invariant forall j :: 0 <= j < i ==> centres[j] == (AvatarX0 + AvatarStep * j, AvatarY)
    {
      centres := centres + [(x, AvatarY)];
      x := x + AvatarStep;
      i := i + 1;
    }
  }

  // ------------------------------------------------------------ action bar

  predicate UnderscoreOrSpace(c: char) {
    c == '_' || IsSpace(c)
  }

  /**
   * `r` is what the action bar shows for `raw` when the shown text starts at
   * `raw[a]`: everything of `raw` around it is blanks or underscores, each
   * underscore inside reads as a space, and only the first character is upper-cased.
   */
  predicate LabelFrom(raw: string, a: int, r: string) {
    && 0 <= a && a + |r| <= |raw|
    && (forall k :: 0 <= k < a ==> UnderscoreOrSpace(raw[k]))
    && (forall k :: a + |r| <= k < |raw| ==> UnderscoreOrSpace(raw[k]))
    && (|r| > 0 ==> r[0] == UpperChar(raw[a]))
    && (forall k :: 1 <= k < |r| ==> r[k] == (if raw[a + k] == '_' then ' ' else raw[a + k]))
  }

  /** Underscores read as spaces, surrounding blanks dropped, first character upper-cased. */
  function FormatLabel(raw: string): (r: string)
    ensures |r| <= |raw|
  {
    var nice := Strip(ReplaceChar(raw, '_', ' '));
    if |nice| > 0 then [UpperChar(nice[0])] + nice[1..] else nice
  }

  /** Facts about the underscore-to-space step shared by the label lemmas. */
  lemma SpacedFacts(raw: string)
    ensures var spaced := ReplaceChar(raw, '_', ' ');
            && '_' !in spaced
            && forall k :: 0 <= k < |raw| ==> (UnderscoreOrSpace(raw[k]) <==> IsSpace(spaced[k]))
  {
  }

  /** The formatted label is never blank-edged and holds no underscore. */
  lemma FormatLabelClean(raw: string)
    ensures var r := FormatLabel(raw);
            && '_' !in r
            && (|r| > 0 ==> !IsSpace(r[0]) && !IsSpace(r[|r| - 1]))
  {
    var spaced := ReplaceChar(raw, '_', ' ');
    var nice := Strip(spaced);
    var a := LeadingSpaces(spaced);
    SpacedFacts(raw);
    var r := FormatLabel(raw);
    if |nice| > 0 {
      UpperCharFacts(nice[0]);
      forall k | 0 <= k < |r| ensures r[k] != '_' {
        if k > 0 {
          assert r[k] == nice[k] == spaced[a + k];
        }
      }
    }
  }

  /** The formatted label is empty exactly when the raw one is only underscores and blanks. */
  lemma FormatLabelEmpty(raw: string)
    ensures FormatLabel(raw) == [] <==> forall k :: 0 <= k < |raw| ==> UnderscoreOrSpace(raw[k])
  {
    SpacedFacts(raw);
  }

  /** The formatted label is the non-blank middle of the raw one, as `LabelFrom` describes. */
  lemma FormatLabelFrom(raw: string)
    ensures FormatLabel(raw) != [] ==>
              LabelFrom(raw, LeadingSpaces(ReplaceChar(raw, '_', ' ')), FormatLabel(raw))
  {
    var spaced := ReplaceChar(raw, '_', ' ');
    var nice := Strip(spaced);
    var a := LeadingSpaces(spaced);
    var r := FormatLabel(raw);
    SpacedFacts(raw);
    if |nice| > 0 {
      assert r == [UpperChar(nice[0])] + nice[1..];
      assert r[0] == UpperChar(raw[a]);
      forall k | 1 <= k < |r| ensures r[k] == (if raw[a + k] == '_' then ' ' else raw[a + k]) {
        assert r[k] == nice[k] == spaced[a + k];
      }
      forall k | 0 <= k < a ensures UnderscoreOrSpace(raw[k]) {
        assert IsSpace(spaced[k]);
      }
      forall k | a + |r| <= k < |raw| ensures UnderscoreOrSpace(raw[k]) {
        assert spaced[a + |nice|..][k - a - |nice|] == spaced[k];
      }
    }
  }

  /** The formatted label's first character is already upper-case. */
  lemma FormatLabelHead(raw: string)
    ensures |FormatLabel(raw)| > 0 ==> UpperChar(FormatLabel(raw)[0]) == FormatLabel(raw)[0]
  {
    var nice := Strip(ReplaceChar(raw, '_', ' '));
    if |nice| > 0 {
      UpperCharFacts(nice[0]);
    }
  }

  /**
   * `draw_action_bar`: `last_action_str` (default "idle") with underscores
   * turned into spaces, stripped, and its first character upper-cased.
   */
  function ActionLabel(lastAction: Option<string>): (r: string)
    ensures '_' !in r
    ensures |r| > 0 ==> !IsSpace(r[0]) && !IsSpace(r[|r| - 1])
  {
    FormatLabelClean(lastAction.GetOr(DefaultAction));
    FormatLabel(lastAction.GetOr(DefaultAction))
  }

  /** Stripping and replacing are no-ops on text that has nothing to strip or replace. */
  lemma FormatLabelTrimmed(s: string)
    requires '_' !in s && (|s| > 0 ==> !IsSpace(s[0]) && !IsSpace(s[|s| - 1]))
    ensures FormatLabel(s) == if |s| > 0 then [UpperChar(s[0])] + s[1..] else s
  {
    assert ReplaceChar(s, '_', ' ') == s;
    StripTrimmed(s);
  }

  /** A label whose ends are neither blank nor underscore keeps its length and only changes case at the front. */
  lemma FormatLabelPlain(raw: string)
    requires |raw| > 0 && !UnderscoreOrSpace(raw[0]) && !UnderscoreOrSpace(raw[|raw| - 1])
    ensures FormatLabel(raw) == [UpperChar(raw[0])] + ReplaceChar(raw, '_', ' ')[1..]
  {
    var spaced := ReplaceChar(raw, '_', ' ');
    assert spaced[0] == raw[0] && spaced[|raw| - 1] == raw[|raw| - 1];
    StripTrimmed(spaced);
  }

  lemma IdleExample()
    ensures ActionLabel(None) == "Idle"
  {
    FormatLabelPlain(DefaultAction);
    assert ReplaceChar(DefaultAction, '_', ' ')[1..] == "dle";
  }

  lemma EmptyLabelExamples()
    ensures ActionLabel(Some("")) == ""
    ensures ActionLabel(Some("___")) == ""
  {
    FormatLabelEmpty("");
    FormatLabelEmpty("___");
  }

  lemma BakeLabel()
    ensures [UpperChar('b')] + ReplaceChar("bake_mini_red_velvet", '_', ' ')[1..] == "Bake mini red velvet"
  {
    var spaced := ReplaceChar("bake_mini_red_velvet", '_', ' ');
    var formatted := [UpperChar('b')] + spaced[1..];
    forall k | 0 <= k < |formatted| ensures formatted[k] == "Bake mini red velvet"[k] {
      if k > 0 {
        assert formatted[k] == spaced[k];
      }
    }
  }

  lemma ActionLabelBakeExample()
    ensures ActionLabel(Some("bake_mini_red_velvet")) == "Bake mini red velvet"
  {
    FormatLabelPlain("bake_mini_red_velvet");
    BakeLabel();
  }

  /** Formatting an already formatted label changes nothing. */
  lemma ActionLabelIdempotent(lastAction: Option<string>)
    ensures ActionLabel(Some(ActionLabel(lastAction))) == ActionLabel(lastAction)
  {
    var r := FormatLabel(lastAction.GetOr(DefaultAction));
    FormatLabelClean(lastAction.GetOr(DefaultAction));
    FormatLabelHead(lastAction.GetOr(DefaultAction));
    FormatLabelTrimmed(r);
    if |r| > 0 {
      assert [UpperChar(r[0])] + r[1..] == r;
    }
  }

  // ----------------------------------------------------------------- frame

  /** The read-only view of the environment the viewer draws. */
  datatype Snapshot = Snapshot(
    t: nat,
    inventory: seq<int>,
    prices: Option<seq<real>>,
    ovens: seq<seq<Batch>>,
    queue: seq<int>,
    lastAction: Option<string>)

  /** A configured viewer: screen width, per-item bake seconds, and the normaliser derived from them. */
  datatype ViewerConfig = ViewerConfig(width: int, bakeSeconds: seq<int>, maxBakeTicks: int)

  function NewViewer(width: int, bakeSeconds: seq<int>): (v: ViewerConfig)
    requires |bakeSeconds| > 0
    ensures v.width == width && v.bakeSeconds == bakeSeconds
    ensures forall i :: 0 <= i < |bakeSeconds| ==> bakeSeconds[i] / SecondsPerTick <= v.maxBakeTicks
    ensures exists i :: 0 <= i < |bakeSeconds| && v.maxBakeTicks == bakeSeconds[i] / SecondsPerTick
  {
    ViewerConfig(width, bakeSeconds, MaxBakeTicks(bakeSeconds))
  }

  /** Everything one call of `render` puts on screen, apart from pixels and float texts. */
  datatype Frame = Frame(
    clock: string,
    tiles: seq<Tile>,
    ovens: seq<OvenView>,
    avatars: seq<(int, int)>,
    action: string)

  /** `render`: header, inventory, ovens, queue and action bar, in that order. */
  method Render(v: ViewerConfig, s: Snapshot) returns (f: Frame)
    requires |s.inventory| >= |v.bakeSeconds|
    requires s.prices.Some? ==> |s.prices.value| >= |v.bakeSeconds|
    ensures |f.tiles| == |v.bakeSeconds| && TilesShow(s.inventory, s.prices, f.tiles)
    ensures OvensShow(v.width, s.ovens, v.maxBakeTicks, f.ovens)
    ensures forall k :: 0 <= k < |f.ovens| ==> 0.0 <= f.ovens[k].progress <= 1.0
    ensures |f.avatars| == Min(|s.queue|, MaxAvatars) && AvatarsShow(f.avatars)
    ensures f.action == ActionLabel(s.lastAction)
    ensures f.clock == ClockText(s.t)
  {
    var tiles := InventoryTiles(|v.bakeSeconds|, s.inventory, s.prices);
    var ovens := OvenViews(v.width, s.ovens, v.maxBakeTicks);
    var avatars := QueueAvatars(s.queue);
    f := Frame(ClockText(s.t), tiles, ovens, avatars, ActionLabel(s.lastAction));
  }
}
