/** Runs the extractor over every dataset row. Each row names a filer
    (`symbol`) and a filing link (`final_link`); the local document is
    `base_dir/symbol/basename(final_link)`. Tasks are submitted in row order
    and their results collected in submission order, so output row i always
    belongs to input row i. */
module BatchOrchestrator {
  import opened PyText
  import opened UnifiedExtractor

  /** An input row: the two columns the extractor reads. */
  datatype Row = Row(symbol: string, finalLink: string)

  /** An output row: the input columns plus `content` and `htm_content`. */
  datatype OutputRow = OutputRow(symbol: string, finalLink: string, content: string, htmContent: string)

  datatype BatchError =
    | InvalidWorkerCount  // the worker pool refuses a size below one
    | NothingToUnpack     // three columns unpacked from zero results

  datatype BatchOutcome = Failed(error: BatchError) | Completed(table: seq<OutputRow>)

  /** `p.rfind('/')`: the position of the last '/', or -1 when there is none. */
  function LastSlash(p: string): (r: int)
    ensures -1 <= r < |p|
    ensures r != -1 ==> p[r] == '/'
    ensures forall k :: r < k < |p| ==> p[k] != '/'
  {
    if p == [] then -1
    else if p[|p| - 1] == '/' then |p| - 1
    else LastSlash(p[..|p| - 1])
  }

  /** `os.path.basename(p)`: everything after the last '/'. */
  function Basename(p: string): string {
    p[LastSlash(p) + 1..]
  }

  /** The base name is the longest '/'-free suffix of the path. */
  lemma BasenameSpec(p: string)
    ensures var r := Basename(p);
      && |r| <= |p| && r == p[|p| - |r|..]
      && (forall k :: 0 <= k < |r| ==> r[k] != '/')
      && (|r| == |p| || p[|p| - |r| - 1] == '/')
  {
  }

  /** `os.path.join(a, b)` on POSIX: an absolute `b` replaces `a`; otherwise
      `b` is appended, after a '/' unless `a` is empty or already ends in one. */
  function PathJoin(a: string, b: string): string {
    if |b| > 0 && b[0] == '/' then b
    else if a == [] || a[|a| - 1] == '/' then a + b
    else a + "/" + b
  }

  /** The joined path ends in `b`. An absolute `b` is the whole result. A
      relative `b` keeps `a` as a prefix, with exactly one character between
      them, a '/', unless `a` is empty or already ends in '/'. */
  lemma PathJoinSpec(a: string, b: string)
    ensures var r := PathJoin(a, b);
      && EndsWith(r, b)
      && (|b| > 0 && b[0] == '/' ==> |r| == |b|)
      && ((b == [] || b[0] != '/') ==> |a| <= |r| && r[..|a|] == a)
      && ((b == [] || b[0] != '/') ==>
            |r| == |a| + |b| + (if a == [] || a[|a| - 1] == '/' then 0 else 1))
      && ((b == [] || b[0] != '/') && a != [] ==> |b| < |r| && r[|r| - |b| - 1] == '/')
  {
  }

  /** `os.path.join(base_dir, symbol, os.path.basename(final_link))`. */
  function RowPath(baseDir: string, row: Row): string {
    PathJoin(PathJoin(baseDir, row.symbol), Basename(row.finalLink))
  }

  /** A path that ends in a file name, right after a '/' or with nothing
      before it, is plain text exactly when the file name is. */
  lemma FileNameDecidesTextPath(path: string, name: string)
    requires EndsWith(path, name)
    requires |path| == |name| || path[|path| - |name| - 1] == '/'
    ensures IsTextPath(path) <==> IsTextPath(name)
  {
    TextPathSuffix(path);
    TextPathSuffix(name);
    var n := |path|;
    var m := |name|;
    if m >= 4 {
      var tail := path[n - m..];
      assert tail[m - 4] == name[m - 4] && tail[m - 3] == name[m - 3];
      assert tail[m - 2] == name[m - 2] && tail[m - 1] == name[m - 1];
    } else if n == m {
      assert path == path[n - m..];
    } else if n >= 4 {
      assert n - 4 <= n - m - 1;
    }
  }

  /** Joining a relative file name onto a directory does not change
      whether the path is plain text. */
  lemma JoinKeepsTextPath(dir: string, name: string)
    requires name == [] || name[0] != '/'
    ensures EndsWith(PathJoin(dir, name), name)
    ensures IsTextPath(PathJoin(dir, name)) <==> IsTextPath(name)
  {
    PathJoinSpec(dir, name);
    var path := PathJoin(dir, name);
    if dir == [] {
      assert path == name;
    }
    FileNameDecidesTextPath(path, name);
  }

  /** The path ends in the file name taken from the link, and which
      extractor runs depends on that file name alone: neither the base
      directory nor the symbol can make a document plain text. */
  lemma DispatchByFileName(baseDir: string, row: Row)
    ensures EndsWith(RowPath(baseDir, row), Basename(row.finalLink))
    ensures IsTextPath(RowPath(baseDir, row)) <==> IsTextPath(Basename(row.finalLink))
  {
    var dir := PathJoin(baseDir, row.symbol);
    var name := Basename(row.finalLink);
    assert RowPath(baseDir, row) == PathJoin(dir, name);
    assert name == [] || name[0] != '/' by {
      BasenameSpec(row.finalLink);
    }
    JoinKeepsTextPath(dir, name);
  }

  /** What one row produces: its symbol and the extracted pair. */
  function RowResult(fs: FileSystem, baseDir: string, row: Row): (string, string, string) {
    var (content, html) := Item1Content(fs, RowPath(baseDir, row));
    (row.symbol, content, html)
  }

  /** `process_row`. */
  method ProcessRow(fs: FileSystem, row: Row, baseDir: string) returns (symbol: string, content: string, html: string)
    ensures (symbol, content, html) == RowResult(fs, baseDir, row)
    ensures symbol == row.symbol
  {
    symbol := row.symbol;
    var fileName := Basename(row.finalLink);
    var filePath := PathJoin(PathJoin(baseDir, symbol), fileName);
    content, html := ExtractItem1Content(fs, filePath);
  }

  /** `[f(x) for x in xs]`, built from the back as the collecting loop builds it. */
  function MapInOrder<A, B>(f: A -> B, xs: seq<A>): (ys: seq<B>)
    ensures |ys| == |xs|
  {
    if xs == [] then [] else MapInOrder(f, xs[..|xs| - 1]) + [f(xs[|xs| - 1])]
  }

  /** Position i of the mapped sequence holds the image of element i. */
  lemma {:induction false} MapInOrderAt<A, B>(f: A -> B, xs: seq<A>)
    ensures forall i :: 0 <= i < |xs| ==> MapInOrder(f, xs)[i] == f(xs[i])
  {
    if xs != [] {
      MapInOrderAt(f, xs[..|xs| - 1]);
    }
  }

  /** The submit-then-collect loop: one result per row, in submission order. */
  method CollectResults(fs: FileSystem, rows: seq<Row>, baseDir: string)
    returns (results: seq<(string, string, string)>)
    ensures results == MapInOrder(row => RowResult(fs, baseDir, row), rows)
  {
    ghost var f := row => RowResult(fs, baseDir, row);
    results := [];
    var i := 0;
    while i < |rows|
      invariant 0 <= i <= |rows|
      invariant results == MapInOrder(f, rows[..i])
    {
      var symbol, content, html := ProcessRow(fs, rows[i], baseDir);
      assert rows[..i + 1][..i] == rows[..i];
      results := results + [(symbol, content, html)];
      i := i + 1;
    }
    assert rows[..i] == rows;
  }

  /** The output row for an input row. */
  function OutputFor(fs: FileSystem, baseDir: string, row: Row): OutputRow {
    var (_, content, html) := RowResult(fs, baseDir, row);
    OutputRow(row.symbol, row.finalLink, content, html)
  }

  /** Adds the `content` and `htm_content` columns, position by position. */
  function WithColumns(rows: seq<Row>, results: seq<(string, string, string)>): (table: seq<OutputRow>)
    requires |results| == |rows|
    ensures |table| == |rows|
  {
    seq(|rows|, i requires 0 <= i < |rows| =>
      OutputRow(rows[i].symbol, rows[i].finalLink, results[i].1, results[i].2))
  }

  /** `parallel_process` as written: a pool size below one is refused, and
      an input without rows fails when the empty result list is unpacked
      into three columns. */
  method ParallelProcessAsWritten(fs: FileSystem, rows: seq<Row>, baseDir: string, maxWorkers: int)
    returns (out: BatchOutcome)
    ensures maxWorkers < 1 ==> out == Failed(InvalidWorkerCount)
    ensures maxWorkers >= 1 && rows == [] ==> out == Failed(NothingToUnpack)
    ensures maxWorkers >= 1 && rows != [] ==> out.Completed?
    ensures out.Completed? ==> |out.table| == |rows|
    ensures out.Completed? ==> forall i :: 0 <= i < |rows| ==> out.table[i] == OutputFor(fs, baseDir, rows[i])
  {
    if maxWorkers < 1 {
      return Failed(InvalidWorkerCount);
    }
    var results := CollectResults(fs, rows, baseDir);
    MapInOrderAt(row => RowResult(fs, baseDir, row), rows);
    if |results| == 0 {
      return Failed(NothingToUnpack);
    }
    out := Completed(WithColumns(rows, results));
  }

  /** `parallel_process` with the empty input handled: any valid pool size
      gives exactly one output row per input row, in input order, each
      carrying what the extractor returns for that row's document. */
  method ParallelProcess(fs: FileSystem, rows: seq<Row>, baseDir: string, maxWorkers: int)
    returns (out: BatchOutcome)
    ensures maxWorkers < 1 <==> out == Failed(InvalidWorkerCount)
    ensures maxWorkers >= 1 ==> out.Completed?
    ensures out.Completed? ==> |out.table| == |rows|
    ensures out.Completed? ==> forall i :: 0 <= i < |rows| ==> out.table[i] == OutputFor(fs, baseDir, rows[i])
  {
    if maxWorkers < 1 {
      return Failed(InvalidWorkerCount);
    }
    var results := CollectResults(fs, rows, baseDir);
    MapInOrderAt(row => RowResult(fs, baseDir, row), rows);
    out := Completed(WithColumns(rows, results));
  }
}
