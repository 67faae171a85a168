/**
 * The arithmetic and string handling inside `BinaryManager`: stripping the
 * top-level directory from the names of the MariaDB zip's entries, and the
 * byte counting and percentage that `downloadFile` logs. Files, the
 * network and the tar process are not part of this model.
 */
module BinaryManager {
  import opened JavaLang

  // ---------------------------------------------------------------------
  // Zip entry names

  /** The first '/' of the entry name, or failing that the first '\', or -1. */
  function SeparatorIndex(name: string): (r: int)
    ensures -1 <= r < |name|
    ensures r == -1 <==> '/' !in name && '\\' !in name
    ensures '/' in name ==> name[r] == '/' && '/' !in name[..r]
    ensures '/' !in name && r >= 0 ==> name[r] == '\\' && '\\' !in name[..r]
  {
    var slash := IndexOf(name, '/');
    if slash == -1 then IndexOf(name, '\\') else slash
  }

  /**
   * The name with its first component removed, or `None` when the entry is
   * skipped: there is no separator, or the separator is the last character
   * (the top-level directory itself).
   */
  function StrippedName(name: string): (r: Option<string>)
    ensures r.Some? <==> SeparatorIndex(name) != -1 && SeparatorIndex(name) + 1 < |name|
    ensures r.Some? ==>
      var i := SeparatorIndex(name);
      && 0 < |r.value| < |name|
      && name == name[..i] + [name[i]] + r.value
      && (name[i] == '/' || name[i] == '\\')
  {
    var i := SeparatorIndex(name);
    if i != -1 && i + 1 < |name| then
      assert name == name[..i] + [name[i]] + name[i + 1..];
      Some(name[i + 1..])
    else None
  }

  /** Stripping undoes prefixing with a top-level directory. */
  lemma StripTopLevel(top: string, sep: char, path: string)
    requires sep == '/' || sep == '\\'
    requires '/' !in top && '\\' !in top && path != []
    requires sep == '\\' ==> '/' !in path
    ensures StrippedName(top + [sep] + path) == Some(path)
  {
    var name := top + [sep] + path;
    assert name == top + ([sep] + path);
    assert name[..|top|] == top;
    IndexOfAt(name, sep, |top|);
    if sep == '\\' {
      assert '/' !in name;
    }
    assert name[|top| + 1..] == path;
  }

  /** The first occurrence of `c` is at `k` when `c` is at `k` and not before it. */
  lemma IndexOfAt(s: string, c: char, k: nat)
    requires k < |s| && s[k] == c && c !in s[..k]
    ensures IndexOf(s, c) == k
  {
    assert s[k] in s;
  }

  /** A forward slash anywhere wins over an earlier backslash. */
  lemma ForwardSlashTakesPrecedence()
    ensures StrippedName("a\\b/c") == Some("c")
  {
    var name := "a\\b/c";
    assert name[3] == '/' && '/' !in name[..3];
    assert SeparatorIndex(name) == 3;
    assert name[4..] == "c";
  }

  /** A zip entry as `ZipInputStream.getNextEntry()` yields it. */
  datatype ZipEntry = ZipEntry(name: string)
  {
    /** `ZipEntry.isDirectory()`: the name ends with `/`. */
    predicate IsDirectory()
    {
      |name| > 0 && name[|name| - 1] == '/'
    }
  }

  /** What the extraction loop does on disk for one kept entry, under `binDir`. */
  datatype Extraction =
    | CreateDirectories(path: string)            // a directory entry
    | CopyFile(path: string)                     // parent directories, then the entry's bytes

  /** What one pass of the loop does for `entry`: nothing when the entry is skipped. */
  function ExtractEntry(entry: ZipEntry): (r: seq<Extraction>)
    ensures |r| <= 1
    ensures |r| == 1 <==> StrippedName(entry.name).Some?
    ensures |r| == 1 ==>
      && r[0].path == StrippedName(entry.name).value
      && (r[0].CreateDirectories? <==> entry.IsDirectory())
  {
    match StrippedName(entry.name)
    case None => []
    case Some(path) => [if entry.IsDirectory() then CreateDirectories(path) else CopyFile(path)]
  }

  /** `f` applied to each element of `s` in order, the results concatenated. */
  function FlatMap<A, B>(f: A -> seq<B>, s: seq<A>): seq<B>
  {
    if |s| == 0 then [] else FlatMap(f, s[..|s| - 1]) + f(s[|s| - 1])
  }

  lemma {:induction false} FlatMapAppend<A, B>(f: A -> seq<B>, a: seq<A>, b: seq<A>)
    ensures FlatMap(f, a + b) == FlatMap(f, a) + FlatMap(f, b)
    decreases |b|
  {
    if |b| == 0 {
      assert a + b == a;
    } else {
      var ab := a + b;
      assert ab[..|ab| - 1] == a + b[..|b| - 1];
      assert ab[|ab| - 1] == b[|b| - 1];
      FlatMapAppend(f, a, b[..|b| - 1]);
    }
  }

  /** The effect of the loop over the entries, in order. */
  function Extracted(entries: seq<ZipEntry>): (r: seq<Extraction>)
  {
    FlatMap(ExtractEntry, entries)
  }

  /** Entries are handled one at a time: each contributes independently, in order. */
  lemma ExtractedAppend(a: seq<ZipEntry>, b: seq<ZipEntry>)
    ensures Extracted(a + b) == Extracted(a) + Extracted(b)
  {
    FlatMapAppend(ExtractEntry, a, b);
  }

  /** The archive's top-level directory entry writes nothing. */
  lemma TopLevelDirectorySkipped(top: string)
    requires '/' !in top && '\\' !in top
    ensures Extracted([ZipEntry(top + "/")]) == []
  {
    var name := top + "/";
    assert name[..|top|] == top;
    IndexOfAt(name, '/', |top|);
    var entry := ZipEntry(name);
    assert ExtractEntry(entry) == [];
    assert [entry][..0] == [];
    assert FlatMap(ExtractEntry, [entry]) == FlatMap(ExtractEntry, []) + ExtractEntry(entry);
  }

  lemma ExtractedSnoc(entries: seq<ZipEntry>, k: nat)
    requires k < |entries|
    ensures Extracted(entries[..k + 1]) == Extracted(entries[..k]) + ExtractEntry(entries[k])
  {
    assert entries[..k + 1][..k] == entries[..k];
  }

  /** The `while (entry != null)` loop of `setupWindows`. */
  method ExtractEntries(entries: seq<ZipEntry>) returns (actions: seq<Extraction>)
    ensures actions == Extracted(entries)
  {
    actions := [];
    var k := 0;
    while k < |entries|
      invariant 0 <= k <= |entries|
      invariant actions == Extracted(entries[..k])
    {
      var entry := entries[k];
      var name := entry.name;
      var slashIndex := IndexOf(name, '/');
      if slashIndex == -1 {
        slashIndex := IndexOf(name, '\\');
      }
      assert slashIndex == SeparatorIndex(name);
      ghost var stripped := StrippedName(name);
      var step: seq<Extraction> := [];
      if slashIndex != -1 && slashIndex + 1 < |name| {
        var strippedName := name[slashIndex + 1..];
        if !entry.IsDirectory() {
          step := [CopyFile(strippedName)];
        } else {
          step := [CreateDirectories(strippedName)];
        }
      }
      ExtractedSnoc(entries, k);
      actions := actions + step;
      k := k + 1;
    }
    assert entries[..k] == entries;
  }

  // ---------------------------------------------------------------------
  // Download progress

  const BytesPerMB: int := 1024 * 1024
  const LogInterval: int := 3000

  /** `fileSize / (1024 * 1024)` on a `long` that is -1 when the length is unknown. */
  function TotalMB(fileSize: Long): (r: Long)
    ensures fileSize >= 0 ==> r * BytesPerMB <= fileSize < (r + 1) * BytesPerMB
    ensures -BytesPerMB < fileSize < BytesPerMB ==> r == 0
  {
    TruncDiv(fileSize, BytesPerMB)
  }

  /** What the start message shows as the total size. */
  function TotalSizeText(fileSize: Long): (t: string)
    ensures fileSize < BytesPerMB ==> t == "Unknown"
    ensures fileSize >= BytesPerMB ==> t == DecimalString(fileSize / BytesPerMB)
  {
    var mb := TotalMB(fileSize);
    if mb > 0 then DecimalString(mb) else "Unknown"
  }

  /** `(int) ((totalBytesRead * 100) / fileSize)`: `long` arithmetic, then a narrowing cast. */
  function Percent(totalBytesRead: Long, fileSize: Long): Int
    requires fileSize > 0
  {
    WrapInt(TruncDiv(WrapLong(totalBytesRead as int * 100), fileSize))
  }

  lemma DivAtMost(a: int, f: int, m: int)
    requires f > 0 && 0 <= a <= m * f
    ensures a / f <= m
  {
    var q, r := a / f, a % f;
    assert a == q * f + r && 0 <= r;
  }

  lemma ProductBelow(x: int, f: int)
    requires x >= 0 && f > 0 && x * f < f
    ensures x == 0
  {
  }

  /**
   * Without overflow the logged percentage lies in 0..100, and is 100 once
   * every byte has arrived.
   */
  lemma PercentInRange(totalBytesRead: Long, fileSize: Long)
    requires 0 <= totalBytesRead <= fileSize && 0 < fileSize && fileSize * 100 <= MaxLong
    ensures 0 <= Percent(totalBytesRead, fileSize) <= 100
    ensures totalBytesRead == fileSize ==> Percent(totalBytesRead, fileSize) == 100
  {
    var scaled := totalBytesRead as int * 100;
    assert 0 <= scaled <= 100 * fileSize;
    assert WrapLong(scaled) == scaled;
    DivAtMost(scaled, fileSize, 100);
    var q := scaled / fileSize;
    assert TruncDiv(scaled, fileSize) == q;
    if totalBytesRead == fileSize {
      var r := scaled % fileSize;
      assert scaled == q * fileSize + r && 0 <= r < fileSize;
      assert (100 - q) * fileSize == r;
      ProductBelow(100 - q, fileSize);
    }
  }

  /** The size of a buffer's worth of bytes: `in.read(dataBuffer, 0, 8192)` before end of input. */
  type ChunkSize = n: int | 1 <= n <= 8192 witness 1

  /** One read: how many bytes it returned, and the clock reading taken after it. */
  datatype Chunk = Chunk(bytesRead: ChunkSize, time: Long)

  /** A progress message: the byte count, with the percentage when the size is known. */
  datatype ProgressLine = WithPercent(totalBytesRead: Long, percent: Int) | WithoutPercent(totalBytesRead: Long)

  /** The loop's variables and the messages logged so far. */
  datatype Download = Download(totalBytesRead: Long, lastLogTime: Long, logged: seq<ProgressLine>)

  /** One pass of the loop: count the bytes; log if more than 3 s have passed since the last log. */
  function AfterChunk(d: Download, fileSize: Long, c: Chunk): Download
  {
    var total := WrapLong(d.totalBytesRead as int + c.bytesRead as int);
    if WrapLong(c.time as int - d.lastLogTime as int) > LogInterval then
      var line := if fileSize > 0 then WithPercent(total, Percent(total, fileSize)) else WithoutPercent(total);
      Download(total, c.time, d.logged + [line])
    else Download(total, d.lastLogTime, d.logged)
  }

  /** The loop over all reads, from `totalBytesRead == 0` and `lastLogTime == startTime`. */
  function Downloaded(fileSize: Long, startTime: Long, chunks: seq<Chunk>): (d: Download)
    ensures |d.logged| <= |chunks|
  {
    if |chunks| == 0 then Download(0, startTime, [])
    else AfterChunk(Downloaded(fileSize, startTime, chunks[..|chunks| - 1]), fileSize, chunks[|chunks| - 1])
  }

  function SumBytes(chunks: seq<Chunk>): nat
  {
    if |chunks| == 0 then 0 else SumBytes(chunks[..|chunks| - 1]) + chunks[|chunks| - 1].bytesRead
  }

  /**
   * Until the count overflows the loop counts every byte; when the size is
   * unknown (`getContentLengthLong()` gave 0 or -1) no logged line carries a
   * percentage.
   */
  lemma {:induction false} DownloadCountsBytes(fileSize: Long, startTime: Long, chunks: seq<Chunk>)
    requires SumBytes(chunks) <= MaxLong
    ensures var d := Downloaded(fileSize, startTime, chunks);
      && d.totalBytesRead == SumBytes(chunks)
      && (fileSize <= 0 ==> forall j :: 0 <= j < |d.logged| ==> d.logged[j].WithoutPercent?)
    decreases |chunks|
  {
    if |chunks| > 0 {
      var init := chunks[..|chunks| - 1];
      DownloadCountsBytes(fileSize, startTime, init);
    }
  }

  /**
   * When the server announced the true size, every logged line carries a
   * percentage in 0..100.
   */
  lemma {:induction false} DownloadPercentsInRange(fileSize: Long, startTime: Long, chunks: seq<Chunk>)
    requires SumBytes(chunks) <= fileSize && fileSize * 100 <= MaxLong
    ensures var d := Downloaded(fileSize, startTime, chunks);
      forall j :: 0 <= j < |d.logged| ==> d.logged[j].WithPercent? && 0 <= d.logged[j].percent <= 100
    decreases |chunks|
  {
    if |chunks| > 0 {
      var init := chunks[..|chunks| - 1];
      var c := chunks[|chunks| - 1];
      DownloadPercentsInRange(fileSize, startTime, init);
      DownloadCountsBytes(fileSize, startTime, init);
      var d := Downloaded(fileSize, startTime, init);
      var total := d.totalBytesRead + c.bytesRead;
      assert total == SumBytes(chunks);
      PercentInRange(total, fileSize);
    }
  }

  /** The `while` loop of `downloadFile`, with the bytes themselves left out. */
  method DownloadFile(fileSize: Long, startTime: Long, chunks: seq<Chunk>)
    returns (totalBytesRead: Long, logged: seq<ProgressLine>)
    ensures var d := Downloaded(fileSize, startTime, chunks);
      totalBytesRead == d.totalBytesRead && logged == d.logged
  {
    totalBytesRead := 0;
    var lastLogTime := startTime;
    logged := [];
    for k := 0 to |chunks|
      invariant Downloaded(fileSize, startTime, chunks[..k]) == Download(totalBytesRead, lastLogTime, logged)
    {
      ghost var before := Download(totalBytesRead, lastLogTime, logged);
      var bytesRead := chunks[k].bytesRead;
      totalBytesRead := WrapLong(totalBytesRead as int + bytesRead as int);
      var currentTime := chunks[k].time;
      if WrapLong(currentTime as int - lastLogTime as int) > LogInterval {
        if fileSize > 0 {
          var percent := WrapInt(TruncDiv(WrapLong(totalBytesRead as int * 100), fileSize));
          logged := logged + [WithPercent(totalBytesRead, percent)];
        } else {
          logged := logged + [WithoutPercent(totalBytesRead)];
        }
        lastLogTime := currentTime;
      }
      assert Download(totalBytesRead, lastLogTime, logged) == AfterChunk(before, fileSize, chunks[k]);
      assert chunks[..k + 1][..k] == chunks[..k];
      assert chunks[..k + 1][k] == chunks[k];
    }
    assert chunks[..|chunks|] == chunks;
  }
}
