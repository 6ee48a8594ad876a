/** The source registry: an append-only JSON-lines file with one discovered source per line, and
    the queries that read it back. */
module SourceRegistry {
  import opened Wrappers
  import opened Text
  import opened Sources

  /** A line of the registry file: blank (white space only), or one source serialised as JSON. */
  datatype Line = Blank | Record(source: DiscoveredSource)

  /** The lines of the file; a file that does not exist has none. */
  function LinesOf(file: Option<seq<Line>>): seq<Line> {
    if file.Some? then file.value else []
  }

  /** The lines `add_source` writes for `sources`, one record each. */
  function RecordLines(sources: seq<DiscoveredSource>): seq<Line> {
    seq(|sources|, i requires 0 <= i < |sources| => Record(sources[i]))
  }

  // What the readers' loops compute

  /** The sources the lines decode to, in file order, blank lines skipped. */
  function Records(lines: seq<Line>): (r: seq<DiscoveredSource>)
    ensures |r| <= |lines|
    ensures forall s :: s in r ==> Record(s) in lines
    decreases |lines|
  {
    if |lines| == 0 then []
    else
      Records(lines[..|lines| - 1])
        + (match lines[|lines| - 1] case Blank => [] case Record(s) => [s])
  }

  /** `region_id in file_path`, which raises on a record whose path is null. */
  function InRegion(s: DiscoveredSource, regionId: string): Result<bool> {
    if s.filePath.None? then Err("argument of type 'NoneType' is not iterable")
    else Ok(Contains(s.filePath.value, regionId))
  }

  /** The loop of `get_sources_by_region` over `lines`: the first failing test ends the query. */
  function ByRegion(lines: seq<Line>, regionId: string): (r: Result<seq<DiscoveredSource>>)
    ensures r.Ok? ==> |r.value| <= |lines|
    ensures r.Ok? ==> forall s :: s in r.value ==> s.filePath.Some? && Contains(s.filePath.value, regionId)
    decreases |lines|
  {
    if |lines| == 0 then Ok([])
    else
      var prior := ByRegion(lines[..|lines| - 1], regionId);
      if prior.Err? then prior
      else match lines[|lines| - 1]
        case Blank => prior
        case Record(s) =>
          var m := InRegion(s, regionId);
          if m.Err? then Err(m.message)
          else if m.value then Ok(prior.value + [s])
          else prior
  }

  /** Python truthiness of the optional region: None and "" are both false. */
  predicate RegionGiven(regionId: Option<string>) {
    regionId.Some? && |regionId.value| > 0
  }

  /** The loop of `get_sources_by_category`: the category is compared with the stored enumeration
      value first, and the region test is made only for a given region. */
  function ByCategory(lines: seq<Line>, category: string, regionId: Option<string>)
    : (r: Result<seq<DiscoveredSource>>)
    ensures r.Err? ==> RegionGiven(regionId)
    ensures r.Ok? ==> |r.value| <= |lines|
    ensures r.Ok? ==> forall s :: s in r.value ==> CategoryName(s.category) == category
    decreases |lines|
  {
    if |lines| == 0 then Ok([])
    else
      var prior := ByCategory(lines[..|lines| - 1], category, regionId);
      if prior.Err? then prior
      else match lines[|lines| - 1]
        case Blank => prior
        case Record(s) =>
          if CategoryName(s.category) != category then prior
          else if !RegionGiven(regionId) then Ok(prior.value + [s])
          else
            var m := InRegion(s, regionId.value);
            if m.Err? then Err(m.message)
            else if m.value then Ok(prior.value + [s])
            else prior
  }

  // Reference definitions the queries are proved against

  /** The elements of `xs` that `keep` accepts, in order. */
  function Filter(xs: seq<DiscoveredSource>, keep: DiscoveredSource -> bool): seq<DiscoveredSource>
    decreases |xs|
  {
    if |xs| == 0 then [] else (if keep(xs[0]) then [xs[0]] else []) + Filter(xs[1..], keep)
  }

  /** A stored path that contains the region id. */
  function RegionKeep(regionId: string): DiscoveredSource -> bool {
    (s: DiscoveredSource) => s.filePath.Some? && Contains(s.filePath.value, regionId)
  }

  /** The category's value, and for a given region a stored path containing it. */
  function CategoryKeep(category: string, regionId: Option<string>): DiscoveredSource -> bool {
    (s: DiscoveredSource) => CategoryName(s.category) == category
      && (!RegionGiven(regionId) || (s.filePath.Some? && Contains(s.filePath.value, regionId.value)))
  }

  /** Some record that `among` selects has a null path. */
  predicate NullPathAmong(lines: seq<Line>, among: DiscoveredSource -> bool) {
    exists i :: 0 <= i < |lines| && lines[i].Record? && lines[i].source.filePath.None? && among(lines[i].source)
  }

  /** The registry file of one settings object. */
  class Registry {
    /** The file's lines; None while the file does not exist. */
    var file: Option<seq<Line>>

    /** A registry over whatever the file already holds. */
    constructor(existing: Option<seq<Line>>)
      ensures file == existing
    {
      file := existing;
    }

    /** `add_source`: opens the file for appending, creating it, and writes one record. */
    method AddSource(source: DiscoveredSource)
      modifies this
      ensures file == Some(LinesOf(old(file)) + [Record(source)])
    {
      file := Some(LinesOf(file) + [Record(source)]);
    }

    /** `add_sources`: `add_source` on each source in order; no source, no file. */
    method AddSources(sources: seq<DiscoveredSource>)
      modifies this
      ensures file == if |sources| == 0 then old(file) else Some(LinesOf(old(file)) + RecordLines(sources))
    {
      var i := 0;
      while i < |sources|
        invariant 0 <= i <= |sources|
        invariant file == if i == 0 then old(file) else Some(LinesOf(old(file)) + RecordLines(sources[..i]))
      {
        ghost var before := LinesOf(file);
        assert before == LinesOf(old(file)) + RecordLines(sources[..i]);
        AddSource(sources[i]);
        assert RecordLines(sources[..i + 1]) == RecordLines(sources[..i]) + [Record(sources[i])];
        assert file.value == LinesOf(old(file)) + RecordLines(sources[..i + 1]);
        i := i + 1;
      }
      assert sources[..|sources|] == sources;
    }

    /** `get_all_sources`. */
    method GetAllSources() returns (r: seq<DiscoveredSource>)
      ensures r == Records(LinesOf(file))
    {
      if file.None? {
        return [];
      }
      var lines := file.value;
      r := [];
      var i := 0;
      while i < |lines|
        invariant 0 <= i <= |lines|
        invariant r == Records(lines[..i])
      {
        assert lines[..i + 1][..i] == lines[..i];
        if lines[i].Record? {
          r := r + [lines[i].source];
        }
        i := i + 1;
      }
      assert lines[..|lines|] == lines;
    }

    /** `get_sources_by_region`. */
    method GetSourcesByRegion(regionId: string) returns (r: Result<seq<DiscoveredSource>>)
      ensures r == ByRegion(LinesOf(file), regionId)
    {
      if file.None? {
        return Ok([]);
      }
      var lines := file.value;
      var sources: seq<DiscoveredSource> := [];
      var i := 0;
      while i < |lines|
        invariant 0 <= i <= |lines|
        invariant ByRegion(lines[..i], regionId) == Ok(sources)
      {
        assert lines[..i + 1][..i] == lines[..i];
        if lines[i].Record? {
          var s := lines[i].source;
          if s.filePath.None? {
            r := Err("argument of type 'NoneType' is not iterable");
            ByRegionErrKept(lines, i + 1, regionId);
            return;
          }
          if Contains(s.filePath.value, regionId) {
            sources := sources + [s];
          }
        }
        i := i + 1;
      }
      assert lines[..|lines|] == lines;
      r := Ok(sources);
    }

    /** `get_sources_by_category`. */
    method GetSourcesByCategory(category: string, regionId: Option<string>) returns (r: Result<seq<DiscoveredSource>>)
      ensures r == ByCategory(LinesOf(file), category, regionId)
    {
      if file.None? {
        return Ok([]);
      }
      var lines := file.value;
      var sources: seq<DiscoveredSource> := [];
      var i := 0;
      while i < |lines|
        invariant 0 <= i <= |lines|
        invariant ByCategory(lines[..i], category, regionId) == Ok(sources)
      {
        ByCategoryStep(lines, i, category, regionId);
        if lines[i].Record? && CategoryName(lines[i].source.category) == category {
          var s := lines[i].source;
          if !RegionGiven(regionId) {
            sources := sources + [s];
          } else if s.filePath.None? {
            r := Err("argument of type 'NoneType' is not iterable");
            ByCategoryErrKept(lines, i + 1, category, regionId);
            return;
          } else if Contains(s.filePath.value, regionId.value) {
            sources := sources + [s];
          }
        }
        i := i + 1;
      }
      assert lines[..|lines|] == lines;
      r := Ok(sources);
    }
  }

  /** One more line of the file: how the category query's result on the longer prefix follows from
      its result on the shorter one. */
  lemma ByCategoryStep(lines: seq<Line>, i: nat, category: string, regionId: Option<string>)
    requires i < |lines| && ByCategory(lines[..i], category, regionId).Ok?
    ensures var prior, next := ByCategory(lines[..i], category, regionId), ByCategory(lines[..i + 1], category, regionId);
      (lines[i].Blank? || CategoryName(lines[i].source.category) != category ==> next == prior)
      && (lines[i].Record? && CategoryName(lines[i].source.category) == category ==>
            next == if !RegionGiven(regionId) then Ok(prior.value + [lines[i].source])
                    else match InRegion(lines[i].source, regionId.value)
                      case Err(m) => Err(m)
                      case Ok(b) => if b then Ok(prior.value + [lines[i].source]) else prior)
  {
    assert lines[..i + 1][..i] == lines[..i];
  }

  // Properties

  /** Once a query has failed on a prefix of the file, it fails with the same error on the file. */
  lemma {:induction false} ByRegionErrKept(lines: seq<Line>, k: nat, regionId: string)
    requires k <= |lines| && ByRegion(lines[..k], regionId).Err?
    ensures ByRegion(lines, regionId) == ByRegion(lines[..k], regionId)
    decreases |lines| - k
  {
    if k < |lines| {
      assert lines[..k + 1][..k] == lines[..k];
      ByRegionErrKept(lines, k + 1, regionId);
    } else {
      assert lines[..k] == lines;
    }
  }

  lemma {:induction false} ByCategoryErrKept(lines: seq<Line>, k: nat, category: string, regionId: Option<string>)
    requires k <= |lines| && ByCategory(lines[..k], category, regionId).Err?
    ensures ByCategory(lines, category, regionId) == ByCategory(lines[..k], category, regionId)
    decreases |lines| - k
  {
    if k < |lines| {
      assert lines[..k + 1][..k] == lines[..k];
      ByCategoryErrKept(lines, k + 1, category, regionId);
    } else {
      assert lines[..k] == lines;
    }
  }

  lemma {:induction false} RecordsAppend(a: seq<Line>, b: seq<Line>)
    ensures Records(a + b) == Records(a) + Records(b)
    decreases |b|
  {
    if |b| == 0 {
      assert a + b == a;
    } else {
      var p := b[..|b| - 1];
      assert (a + b)[..|a + b| - 1] == a + p;
      RecordsAppend(a, p);
    }
  }

  /** Reading back the records `add_sources` wrote gives the sources, in order. */
  lemma {:induction false} RecordLinesRead(sources: seq<DiscoveredSource>)
    ensures Records(RecordLines(sources)) == sources
    decreases |sources|
  {
    if |sources| > 0 {
      var p := sources[..|sources| - 1];
      assert RecordLines(sources)[..|sources| - 1] == RecordLines(p);
      RecordLinesRead(p);
    }
  }

  /** `add_sources` appends its sources after the records already there and changes none of
      them, as `add_source` does for one source. */
  lemma AddedSourcesRead(file: Option<seq<Line>>, sources: seq<DiscoveredSource>)
    ensures Records(LinesOf(file) + RecordLines(sources)) == Records(LinesOf(file)) + sources
  {
    RecordsAppend(LinesOf(file), RecordLines(sources));
    RecordLinesRead(sources);
  }

  /** A blank line contributes nothing wherever it stands. */
  lemma BlankLineSkipped(a: seq<Line>, b: seq<Line>)
    ensures Records(a + [Blank] + b) == Records(a + b)
  {
    RecordsAppend(a + [Blank], b);
    RecordsAppend(a, b);
  }

  lemma {:induction false} FilterAppend(a: seq<DiscoveredSource>, b: seq<DiscoveredSource>, keep: DiscoveredSource -> bool)
    ensures Filter(a + b, keep) == Filter(a, keep) + Filter(b, keep)
    decreases |a|
  {
    if |a| == 0 {
      assert a + b == b;
    } else {
      var head := if keep(a[0]) then [a[0]] else [];
      assert (a + b)[0] == a[0] && (a + b)[1..] == a[1..] + b;
      assert Filter(a + b, keep) == head + Filter(a[1..] + b, keep);
      FilterAppend(a[1..], b, keep);
      assert Filter(a, keep) == head + Filter(a[1..], keep);
    }
  }

  /** A source is in the filtered sequence exactly when it is in the sequence and accepted. */
  lemma {:induction false} FilterMembers(xs: seq<DiscoveredSource>, keep: DiscoveredSource -> bool, s: DiscoveredSource)
    ensures s in Filter(xs, keep) <==> s in xs && keep(s)
    decreases |xs|
  {
    if |xs| > 0 {
      FilterMembers(xs[1..], keep, s);
      assert xs == [xs[0]] + xs[1..];
    }
  }

  lemma FilterSnoc(xs: seq<DiscoveredSource>, s: DiscoveredSource, keep: DiscoveredSource -> bool)
    ensures Filter(xs + [s], keep) == Filter(xs, keep) + (if keep(s) then [s] else [])
  {
    FilterAppend(xs, [s], keep);
    assert [s][1..] == [];
  }

  lemma NullPathSnoc(lines: seq<Line>, among: DiscoveredSource -> bool)
    requires |lines| > 0
    ensures var last := lines[|lines| - 1];
      NullPathAmong(lines, among) <==>
        (NullPathAmong(lines[..|lines| - 1], among) || (last.Record? && last.source.filePath.None? && among(last.source)))
  {
    var p := lines[..|lines| - 1];
    if NullPathAmong(p, among) {
      var i :| 0 <= i < |p| && p[i].Record? && p[i].source.filePath.None? && among(p[i].source);
      assert lines[i] == p[i];
    }
    if NullPathAmong(lines, among) {
      var i :| 0 <= i < |lines| && lines[i].Record? && lines[i].source.filePath.None? && among(lines[i].source);
      if i < |p| {
        assert lines[i] == p[i];
      }
    }
  }

  /** `get_sources_by_region` raises exactly when some stored record has a null path, whatever the
      region; otherwise it returns, in file order, exactly the records whose path contains the
      region id. */
  lemma {:induction false} ByRegionMeans(lines: seq<Line>, regionId: string)
    ensures ByRegion(lines, regionId).Err? <==> NullPathAmong(lines, (s: DiscoveredSource) => true)
    ensures ByRegion(lines, regionId).Ok? ==> ByRegion(lines, regionId).value == Filter(Records(lines), RegionKeep(regionId))
    decreases |lines|
  {
    if |lines| > 0 {
      var p := lines[..|lines| - 1];
      ByRegionMeans(p, regionId);
      NullPathSnoc(lines, (s: DiscoveredSource) => true);
      match lines[|lines| - 1]
      case Blank =>
        assert Records(lines) == Records(p);
      case Record(s) =>
        assert Records(lines) == Records(p) + [s];
        FilterSnoc(Records(p), s, RegionKeep(regionId));
    }
  }

  /** `get_sources_by_category` raises exactly when a region is given and some record of the
      category has a null path; otherwise it returns, in file order, exactly the records of the
      category, and for a given region only those whose path contains it. */
  lemma {:induction false} ByCategoryMeans(lines: seq<Line>, category: string, regionId: Option<string>)
    ensures ByCategory(lines, category, regionId).Err? <==>
      RegionGiven(regionId) && NullPathAmong(lines, (s: DiscoveredSource) => CategoryName(s.category) == category)
    ensures ByCategory(lines, category, regionId).Ok? ==>
      ByCategory(lines, category, regionId).value == Filter(Records(lines), CategoryKeep(category, regionId))
    decreases |lines|
  {
    if |lines| > 0 {
      var p := lines[..|lines| - 1];
      ByCategoryMeans(p, category, regionId);
      NullPathSnoc(lines, (s: DiscoveredSource) => CategoryName(s.category) == category);
      match lines[|lines| - 1]
      case Blank =>
        assert Records(lines) == Records(p);
      case Record(s) =>
        assert Records(lines) == Records(p) + [s];
        FilterSnoc(Records(p), s, CategoryKeep(category, regionId));
    }
  }

  /** Every source a category query returns has that category, and a string that names no
      category matches nothing and cannot fail. */
  lemma CategoryResults(lines: seq<Line>, category: string, regionId: Option<string>)
    ensures ByCategory(lines, category, regionId).Ok? ==>
      forall s :: s in ByCategory(lines, category, regionId).value ==> ParseCategory(category) == Some(s.category)
    ensures ParseCategory(category).None? ==> ByCategory(lines, category, regionId) == Ok([])
  {
    ByCategoryMeans(lines, category, regionId);
    var r := ByCategory(lines, category, regionId);
    var keep := CategoryKeep(category, regionId);
    if r.Ok? {
      forall s | s in r.value ensures ParseCategory(category) == Some(s.category) {
        FilterMembers(Records(lines), keep, s);
      }
    }
    if ParseCategory(category).None? {
      forall i | 0 <= i < |lines| && lines[i].Record?
        ensures CategoryName(lines[i].source.category) != category
      {
      }
      forall s | s in Records(lines) ensures !keep(s) {
      }
      FilterNone(Records(lines), keep);
    }
  }

  lemma {:induction false} FilterNone(xs: seq<DiscoveredSource>, keep: DiscoveredSource -> bool)
    requires forall s :: s in xs ==> !keep(s)
    ensures Filter(xs, keep) == []
    decreases |xs|
  {
    if |xs| > 0 {
      assert xs[0] in xs;
      FilterNone(xs[1..], keep);
    }
  }
}
