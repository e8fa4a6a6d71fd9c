/**
 * The decision logic of scripts/export_tb_plots.py: which runs become plot
 * series (`--series label=dir` entries, else `--logdir`), which event file of
 * a run directory is read, which colour each series gets, and which PNG
 * files are written. TensorBoard loading and matplotlib are replaced by two
 * inputs: the event files found under each directory, and the set of
 * (event file, tag) pairs that hold scalars.
 */
module ExportPlots {
  import opened Wrappers
  import opened Strings

  // A file matched by the recursive glob for `events.*`, with its modification time.
  datatype Candidate = Candidate(path: string, mtime: int)

  /** What `glob` finds under each directory; a directory not listed holds no event file. */
  type FileSystem = map<string, seq<Candidate>>

  function EventFilesUnder(fs: FileSystem, dir: string): seq<Candidate> {
    if dir in fs then fs[dir] else []
  }

  /**
   * Index of the entry `sorted(..., key=mtime, reverse=True)[0]` picks: the
   * newest, and among equally new ones the first, since the sort is stable.
   */
  function NewestIndex(cands: seq<Candidate>): (k: Option<nat>)
    ensures k.None? <==> |cands| == 0
    ensures k.Some? ==> k.value < |cands|
    ensures k.Some? ==> forall j :: 0 <= j < |cands| ==> cands[j].mtime <= cands[k.value].mtime
    ensures k.Some? ==> forall j :: 0 <= j < k.value ==> cands[j].mtime < cands[k.value].mtime
    decreases |cands|
  {
    if |cands| == 0 then None
    else
      var last := |cands| - 1;
      var init := cands[..last];
      assert forall j :: 0 <= j < last ==> init[j] == cands[j];
      match NewestIndex(init)
      case None => Some(0)
      case Some(k) => if cands[last].mtime > cands[k].mtime then Some(last) else Some(k)
  }

  /** `_find_event_file`: the newest event file under `dir`, or None when there is none. */
  function FindEventFile(fs: FileSystem, dir: string): (r: Option<string>)
    ensures r.None? <==> |EventFilesUnder(fs, dir)| == 0
  {
    var cands := EventFilesUnder(fs, dir);
    match NewestIndex(cands)
    case None => None
    case Some(k) => Some(cands[k].path)
  }

  /** The file `_find_event_file` returns is one of the candidates, and none is newer. */
  lemma FindEventFileNewest(fs: FileSystem, dir: string)
    requires FindEventFile(fs, dir).Some?
    ensures var cands := EventFilesUnder(fs, dir);
            exists k :: 0 <= k < |cands| && cands[k].path == FindEventFile(fs, dir).value
                        && forall j :: 0 <= j < |cands| ==> cands[j].mtime <= cands[k].mtime
  {
    var k := NewestIndex(EventFilesUnder(fs, dir)).value;
  }

  /** Position of the first `c` in `s`. */
  function IndexOf(s: string, c: char): (k: Option<nat>)
    ensures k.None? <==> c !in s
    ensures k.Some? ==> k.value < |s| && s[k.value] == c && c !in s[..k.value]
    decreases |s|
  {
    if s == [] then None
    else if s[0] == c then Some(0)
    else
      match IndexOf(s[1..], c)
      case None => None
      case Some(k) =>
        assert s[..k + 1] == [s[0]] + s[1..][..k];
        Some(k + 1)
  }

  /**
   * One `--series` entry: None when it has no '='; otherwise split at the
   * first '=' into a stripped label and the untouched rest as the path.
   */
  function ParseEntry(entry: string): (r: Option<(string, string)>)
    ensures r.None? <==> '=' !in entry
    ensures r.Some? ==> '=' !in r.value.0 && |r.value.0| <= |entry|
  {
    match IndexOf(entry, '=')
    case None => None
    case Some(k) =>
      assert forall c :: c in Strip(entry[..k]) ==> c in entry[..k];
      Some((Strip(entry[..k]), entry[k + 1..]))
  }

  /** Joining a label without '=' to any path and parsing gives back the stripped label and the path. */
  lemma ParseJoin(rawLabel: string, path: string)
    requires '=' !in rawLabel
    ensures ParseEntry(rawLabel + "=" + path) == Some((Strip(rawLabel), path))
  {
    var e := rawLabel + "=" + path;
    var k := IndexOf(e, '=');
    assert e[|rawLabel|] == '=';
    assert e[..|rawLabel|] == rawLabel;
    assert e[|rawLabel| + 1..] == path;
  }

  lemma SplitAround(s: string, k: nat)
    requires k < |s|
    ensures s == s[..k] + [s[k]] + s[k + 1..]
  {
  }

  /** Every parsed entry is some '='-free raw label, an '=', and the path. */
  lemma ParseSplit(entry: string)
    requires ParseEntry(entry).Some?
    ensures var parsed := ParseEntry(entry).value;
            exists rawLabel :: '=' !in rawLabel && entry == rawLabel + "=" + parsed.1 && parsed.0 == Strip(rawLabel)
  {
    var k := IndexOf(entry, '=').value;
    SplitAround(entry, k);
  }

  lemma MalformedExample()
    ensures ParseEntry("runs/ppo") == None
  {
    var e := "runs/ppo";
    assert forall k :: 0 <= k < |e| ==> e[k] != '=';
  }

  /** A plot series: its legend label and the event file it is read from. */
  datatype Series = Series(name: string, eventFile: string)

  /** The series one `--series` entry contributes: none if malformed or if its directory has no event file. */
  function EntrySeries(fs: FileSystem, entry: string): (r: seq<Series>)
    ensures |r| <= 1
    ensures |r| == 1 <==> ParseEntry(entry).Some? && FindEventFile(fs, ParseEntry(entry).value.1).Some?
    ensures |r| == 1 ==> r[0].name == ParseEntry(entry).value.0
    ensures |r| == 1 ==> Some(r[0].eventFile) == FindEventFile(fs, ParseEntry(entry).value.1)
  {
    match ParseEntry(entry)
    case None => []
    case Some((name, path)) =>
      match FindEventFile(fs, path)
      case None => []
      case Some(ev) => [Series(name, ev)]
  }

  /** The `for s in args.series` loop. */
  function CollectSeries(fs: FileSystem, entries: seq<string>): (r: seq<Series>)
    ensures |r| <= |entries|
    decreases |entries|
  {
    if entries == [] then [] else EntrySeries(fs, entries[0]) + CollectSeries(fs, entries[1..])
  }

  lemma CollectCons(fs: FileSystem, e: string, rest: seq<string>)
    ensures CollectSeries(fs, [e] + rest) == EntrySeries(fs, e) + CollectSeries(fs, rest)
  {
    assert ([e] + rest)[1..] == rest;
  }

  /** Entries are handled one by one and in order: the series of a concatenation concatenate. */
  lemma {:induction false} CollectAppend(fs: FileSystem, a: seq<string>, b: seq<string>)
    ensures CollectSeries(fs, a + b) == CollectSeries(fs, a) + CollectSeries(fs, b)
    decreases |a|
  {
    if a == [] {
      assert a + b == b;
    } else {
      assert a == [a[0]] + a[1..];
      assert a + b == [a[0]] + (a[1..] + b);
      CollectCons(fs, a[0], a[1..] + b);
      CollectCons(fs, a[0], a[1..]);
      CollectAppend(fs, a[1..], b);
      var ea, ra, rb := EntrySeries(fs, a[0]), CollectSeries(fs, a[1..]), CollectSeries(fs, b);
      assert ea + (ra + rb) == (ea + ra) + rb;
    }
  }

  /** No entry is dropped exactly when every entry parses and its directory has an event file. */
  lemma {:induction false} CollectKeepsEveryEntry(fs: FileSystem, entries: seq<string>)
    ensures |CollectSeries(fs, entries)| == |entries| <==>
              forall j :: 0 <= j < |entries| ==> |EntrySeries(fs, entries[j])| == 1
    decreases |entries|
  {
    if entries != [] {
      var tail := entries[1..];
      CollectKeepsEveryEntry(fs, tail);
      assert forall j :: 1 <= j < |entries| ==> entries[j] == tail[j - 1];
    }
  }

  predicate CleanName(name: string) {
    '=' !in name && (|name| > 0 ==> !IsSpace(name[0]) && !IsSpace(name[|name| - 1]))
  }

  /** A parsed label is stripped: it neither starts nor ends with whitespace. */
  lemma ParsedLabelClean(entry: string)
    requires ParseEntry(entry).Some?
    ensures CleanName(ParseEntry(entry).value.0)
  {
    var k := IndexOf(entry, '=').value;
    assert ParseEntry(entry).value.0 == Strip(entry[..k]);
  }

  /** Labels of collected series never start or end with whitespace, and never contain '='. */
  lemma {:induction false} CollectedLabelsClean(fs: FileSystem, entries: seq<string>)
    ensures forall i :: 0 <= i < |CollectSeries(fs, entries)| ==> CleanName(CollectSeries(fs, entries)[i].name)
    decreases |entries|
  {
    if entries != [] {
      var head := EntrySeries(fs, entries[0]);
      var rest := CollectSeries(fs, entries[1..]);
      CollectedLabelsClean(fs, entries[1..]);
      if |head| == 1 {
        ParsedLabelClean(entries[0]);
      }
      var r := CollectSeries(fs, entries);
      assert r == head + rest;
      forall i | 0 <= i < |r| ensures CleanName(r[i].name) {
        if i < |head| {
          assert r[i] == head[i];
        } else {
          assert r[i] == rest[i - |head|];
        }
      }
    }
  }

  /** Where the series come from, or why nothing is plotted. */
  datatype Selection = Selected(series: seq<Series>) | NoEventFiles | NoSource

  /** `--series` wins over `--logdir`; `--logdir` alone gives one series labelled "run". */
  function SelectSeries(fs: FileSystem, seriesArg: Option<seq<string>>, logdir: Option<string>): (r: Selection)
    ensures r.NoSource? <==>
              (seriesArg.None? || seriesArg.value == []) && (logdir.None? || logdir.value == [])
    ensures seriesArg.Some? && |seriesArg.value| > 0 ==> r == Selected(CollectSeries(fs, seriesArg.value))
    ensures (seriesArg.None? || seriesArg.value == []) && logdir.Some? && |logdir.value| > 0 ==>
              && (r.NoEventFiles? <==> FindEventFile(fs, logdir.value).None?)
              && (r.Selected? ==> r.series == [Series("run", FindEventFile(fs, logdir.value).value)])
  {
    if seriesArg.Some? && |seriesArg.value| > 0 then Selected(CollectSeries(fs, seriesArg.value))
    else if logdir.Some? && |logdir.value| > 0 then
      match FindEventFile(fs, logdir.value)
      case None => NoEventFiles
      case Some(ev) => Selected([Series("run", ev)])
    else NoSource
  }

  /** With `--series` given, `--logdir` makes no difference. */
  lemma SeriesPrecedence(fs: FileSystem, entries: seq<string>, logdir1: Option<string>, logdir2: Option<string>)
    requires |entries| > 0
    ensures SelectSeries(fs, Some(entries), logdir1) == SelectSeries(fs, Some(entries), logdir2)
    ensures SelectSeries(fs, Some(entries), logdir1).Selected?
  {
  }

  /** `--logdir` alone plots its newest event file as the single series "run". */
  lemma LogdirAlone(fs: FileSystem, dir: string)
    requires |dir| > 0 && |EventFilesUnder(fs, dir)| > 0
    ensures var r := SelectSeries(fs, None, Some(dir));
            r.Selected? && |r.series| == 1 && r.series[0].name == "run"
            && Some(r.series[0].eventFile) == FindEventFile(fs, dir)
  {
  }

  const Palette: seq<string> := ["#8a5fbf", "#ff6b6b", "#4dabf7", "#51cf66", "#ffa94d", "#f06595", "#74c0fc"]

  /** The two exported plots: (tag, title). */
  const Plots: seq<(string, string)> := [
    ("rollout/ep_rew_mean", "Episode reward (mean)"),
    ("eval/mean_reward", "Eval mean reward")
  ]

  /** `colors[i % len(colors)]`: series `i` cycles through the palette. */
  function ColorIndex(i: nat): (c: nat)
    ensures c < |Palette|
    ensures i < |Palette| ==> c == i
  {
    i % |Palette|
  }

  /** Colours repeat every seven series. */
  lemma ColorCycle(i: nat)
    ensures ColorIndex(i + |Palette|) == ColorIndex(i)
  {
  }

  /** A plotted curve: legend label and the palette slot of its colour. */
  datatype Line = Line(legend: string, colorIndex: nat)

  predicate HasTag(has: set<(string, string)>, s: Series, tag: string) {
    (s.eventFile, tag) in has
  }

  /** Curves drawn for `tag`, where `series[0]` is series number `start` of the enumeration. */
  function LinesFrom(series: seq<Series>, tag: string, has: set<(string, string)>, start: nat): (r: seq<Line>)
    ensures |r| <= |series|
    ensures forall j :: 0 <= j < |r| ==> r[j].colorIndex < |Palette|
    decreases |series|
  {
    if series == [] then []
    else
      var rest := LinesFrom(series[1..], tag, has, start + 1);
      if HasTag(has, series[0], tag) then [Line(series[0].name, ColorIndex(start))] + rest
      else rest
  }

  /** Some curve is drawn exactly when some series has the tag. */
  lemma {:induction false} LinesIffTagged(series: seq<Series>, tag: string, has: set<(string, string)>, start: nat)
    ensures LinesFrom(series, tag, has, start) == [] <==>
              forall i :: 0 <= i < |series| ==> !HasTag(has, series[i], tag)
    decreases |series|
  {
    if series != [] {
      LinesIffTagged(series[1..], tag, has, start + 1);
      assert forall i :: 1 <= i < |series| ==> series[i] == series[1..][i - 1];
    }
  }

  /** Series are handled one at a time: the curves of a concatenation concatenate, numbering continued. */
  lemma {:induction false} LinesFromAppend(s1: seq<Series>, s2: seq<Series>, tag: string,
                                           has: set<(string, string)>, start: nat)
    ensures LinesFrom(s1 + s2, tag, has, start)
            == LinesFrom(s1, tag, has, start) + LinesFrom(s2, tag, has, start + |s1|)
    decreases |s1|
  {
    if s1 == [] {
      assert s1 + s2 == s2;
    } else {
      assert (s1 + s2)[0] == s1[0];
      assert (s1 + s2)[1..] == s1[1..] + s2;
      LinesFromAppend(s1[1..], s2, tag, has, start + 1);
    }
  }

  /** One series gives its curve, in colour slot `start`, exactly when it has the tag. */
  lemma LinesFromSingle(s: Series, tag: string, has: set<(string, string)>, start: nat)
    ensures LinesFrom([s], tag, has, start)
            == if HasTag(has, s, tag) then [Line(s.name, ColorIndex(start))] else []
  {
    assert [s][1..] == [];
  }

  /** Curve `k` is some tagged series `i`, drawn with its own enumeration slot `start + i`. */
  lemma {:induction false} LinesFromSound(series: seq<Series>, tag: string, has: set<(string, string)>,
                                          start: nat, k: nat)
    requires k < |LinesFrom(series, tag, has, start)|
    ensures exists i :: 0 <= i < |series| && HasTag(has, series[i], tag)
                        && LinesFrom(series, tag, has, start)[k] == Line(series[i].name, ColorIndex(start + i))
    decreases |series|
  {
    var tail := series[1..];
    var rest := LinesFrom(tail, tag, has, start + 1);
    if HasTag(has, series[0], tag) && k == 0 {
      assert LinesFrom(series, tag, has, start)[0] == Line(series[0].name, ColorIndex(start + 0));
    } else {
      var m := if HasTag(has, series[0], tag) then k - 1 else k;
      assert LinesFrom(series, tag, has, start)[k] == rest[m];
      LinesFromSound(tail, tag, has, start + 1, m);
      var i :| 0 <= i < |tail| && HasTag(has, tail[i], tag)
               && rest[m] == Line(tail[i].name, ColorIndex(start + 1 + i));
      assert series[i + 1] == tail[i];
    }
  }

  /** Every tagged series is drawn, in its own enumeration slot. */
  lemma {:induction false} LinesFromComplete(series: seq<Series>, tag: string, has: set<(string, string)>,
                                             start: nat, i: nat)
    requires i < |series| && HasTag(has, series[i], tag)
    ensures Line(series[i].name, ColorIndex(start + i)) in LinesFrom(series, tag, has, start)
    decreases |series|
  {
    if i > 0 {
      var tail := series[1..];
      assert tail[i - 1] == series[i];
      LinesFromComplete(tail, tag, has, start + 1, i - 1);
      assert start + 1 + (i - 1) == start + i;
    }
  }

  /** A series without the tag is skipped but still uses up its colour slot. */
  lemma SkippedSeriesKeepsSlot(a: Series, b: Series, tag: string, has: set<(string, string)>)
    requires !HasTag(has, a, tag) && HasTag(has, b, tag)
    ensures PlotLines([a, b], tag, has) == [Line(b.name, 1)]
  {
    LinesFromAppend([a], [b], tag, has, 0);
    assert [a, b] == [a] + [b];
    LinesFromSingle(a, tag, has, 0);
    LinesFromSingle(b, tag, has, 1);
  }

  /** The inner plotting loop for one tag: series lacking the tag are skipped but keep their colour slot. */
  function PlotLines(series: seq<Series>, tag: string, has: set<(string, string)>): seq<Line> {
    LinesFrom(series, tag, has, 0)
  }

  /** When every series has the tag, series `i` is drawn with its own label and colour slot `i mod 7`. */
  lemma {:induction false} AllTaggedLines(series: seq<Series>, tag: string, has: set<(string, string)>, start: nat)
    requires forall i :: 0 <= i < |series| ==> HasTag(has, series[i], tag)
    ensures |LinesFrom(series, tag, has, start)| == |series|
    ensures forall i :: 0 <= i < |series| ==>
              LinesFrom(series, tag, has, start)[i] == Line(series[i].name, ColorIndex(start + i))
    decreases |series|
  {
    if series != [] {
      var tail := series[1..];
      assert forall i :: 0 <= i < |tail| ==> tail[i] == series[i + 1];
      AllTaggedLines(tail, tag, has, start + 1);
      var rest := LinesFrom(tail, tag, has, start + 1);
      var r := LinesFrom(series, tag, has, start);
      assert HasTag(has, series[0], tag);
      assert r == [Line(series[0].name, ColorIndex(start))] + rest;
      forall i | 0 <= i < |series|
        ensures r[i] == Line(series[i].name, ColorIndex(start + i))
      {
        if i > 0 {
          assert r[i] == rest[i - 1];
          assert tail[i - 1] == series[i];
          assert ColorIndex(start + 1 + (i - 1)) == ColorIndex(start + i);
        }
      }
    }
  }

  /** Output file for `tag`: '/' becomes '_', "_overlay" unless there is exactly one series, then ".png". */
  function OutputName(tag: string, seriesCount: nat): (r: string)
    ensures '/' !in r
    ensures |r| == |tag| + (if seriesCount == 1 then 0 else 8) + 4
    ensures forall k :: 0 <= k < |tag| ==> r[k] == (if tag[k] == '/' then '_' else tag[k])
    ensures r[|r| - 4..] == ".png"
    ensures seriesCount != 1 <==> r[|tag|..|r| - 4] == "_overlay"
  {
    var stem := ReplaceChar(tag, '/', '_');
    var suffix := if seriesCount == 1 then "" else "_overlay";
    var r := stem + suffix + ".png";
    assert r[|tag|..|r| - 4] == suffix;
    r
  }

  lemma OutputNameExample()
    ensures OutputName("rollout/ep_rew_mean", 1) == "rollout_ep_rew_mean" + ".png"
  {
    var stem := ReplaceChar("rollout/ep_rew_mean", '/', '_');
    forall k | 0 <= k < |stem| ensures stem[k] == "rollout_ep_rew_mean"[k] {}
    assert stem == "rollout_ep_rew_mean";
  }

  /** The figure saved for one plot, if any series has its tag. */
  function SavedFigure(series: seq<Series>, tag: string, has: set<(string, string)>): (r: Option<string>)
    ensures r.Some? <==> exists i :: 0 <= i < |series| && HasTag(has, series[i], tag)
    ensures r.Some? ==> r.value == OutputName(tag, |series|)
  {
    LinesIffTagged(series, tag, has, 0);
    if PlotLines(series, tag, has) == [] then None else Some(OutputName(tag, |series|))
  }

  /** A saved figure carries "_overlay" exactly when more than one series was selected. */
  lemma OverlayIffSeveral(series: seq<Series>, tag: string, has: set<(string, string)>)
    requires SavedFigure(series, tag, has).Some?
    ensures var name := SavedFigure(series, tag, has).value;
            |series| > 1 <==> name[|tag|..|name| - 4] == "_overlay"
  {
  }

  /** `main`: for each plot in order, the PNG file written for it, if any. */
  function Export(fs: FileSystem, seriesArg: Option<seq<string>>, logdir: Option<string>,
                  has: set<(string, string)>): (figures: seq<Option<string>>)
    ensures |figures| == |Plots|
    ensures !SelectSeries(fs, seriesArg, logdir).Selected? ==> forall p :: 0 <= p < |Plots| ==> figures[p].None?
    ensures SelectSeries(fs, seriesArg, logdir).Selected? ==>
              var series := SelectSeries(fs, seriesArg, logdir).series;
              forall p :: 0 <= p < |Plots| ==>
                && (figures[p].Some? <==> exists i :: 0 <= i < |series| && HasTag(has, series[i], Plots[p].0))
                && (figures[p].Some? ==> figures[p].value == OutputName(Plots[p].0, |series|))
  {
    match SelectSeries(fs, seriesArg, logdir)
    case Selected(series) =>
      seq(|Plots|, p requires 0 <= p < |Plots| => SavedFigure(series, Plots[p].0, has))
    case _ => seq(|Plots|, p => None)
  }

  /** The two plots never overwrite each other's file. */
  lemma DistinctOutputs(n: nat)
    ensures OutputName(Plots[0].0, n) != OutputName(Plots[1].0, n)
  {
    assert OutputName(Plots[0].0, n)[0] == 'r';
    assert OutputName(Plots[1].0, n)[0] == 'e';
  }
}
