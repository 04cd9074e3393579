/** Collecting the project's files: one pass that hashes all accepted files together and each on its own. */
module Collector {
  import opened Prelude
  import opened Files

  /** A path, component by component. */
  type Path = seq<string>

  function FileName(path: Path): string {
    if path == [] then "" else path[|path| - 1]
  }

  /** The path below the root, or the whole path if it is not below. */
  function Relative(root: Path, path: Path): Path {
    if root <= path then path[|root|..] else path
  }

  /** A directory entry as the walk delivers it. `data` is the content of the file and `plan` how its reads
      come out, as for an open File; `ignored` tells whether an ignore pattern matches its path. */
  datatype Entry = Entry(path: Path, ignored: bool, isFile: bool, opens: bool, data: seq<Byte>, plan: nat -> int)

  datatype ManifestEntry = ManifestEntry(path: Path, size: nat, sha: string)

  datatype Manifest = Manifest(files: seq<ManifestEntry>, totalFiles: nat, totalSize: nat)

  // ---- which entries count

  predicate StartsWith(s: string, prefix: string) {
    |prefix| <= |s| && s[..|prefix|] == prefix
  }

  predicate ShouldSkip(name: string) {
    || StartsWith(name, "artifact-") || StartsWith(name, "app-")
    || name in {".git", "target", "node_modules", ".DS_Store"}
  }

  predicate Accepted(e: Entry) {
    !ShouldSkip(FileName(e.path)) && !e.ignored && e.isFile && e.opens
  }

  function AcceptedOf(walk: seq<Entry>): seq<Entry> {
    if |walk| == 0 then []
    else AcceptedOf(walk[..|walk| - 1]) + (if Accepted(walk[|walk| - 1]) then [walk[|walk| - 1]] else [])
  }

  /** A name is skipped exactly if it is one of four, or begins with "artifact-" or "app-". */
  lemma SkippedNames(name: string)
    ensures ShouldSkip(".git") && ShouldSkip("target") && ShouldSkip("node_modules") && ShouldSkip(".DS_Store")
    ensures ShouldSkip("artifact-" + name) && ShouldSkip("app-" + name)
    ensures ShouldSkip(name) && name !in {".git", "target", "node_modules", ".DS_Store"} ==>
              || (|name| >= 9 && name[..9] == "artifact-")
              || (|name| >= 4 && name[..4] == "app-")
  {
    assert ("artifact-" + name)[..9] == "artifact-" && ("app-" + name)[..4] == "app-";
  }

  /** Only the last component counts: what lies below a skipped directory is not skipped for that. */
  lemma BelowSkippedDirectory(root: Path, data: seq<Byte>, plan: nat -> int)
    ensures Accepted(Entry(root + ["node_modules", "index.js"], false, true, true, data, plan))
    ensures !Accepted(Entry(root + ["node_modules"], false, true, true, data, plan))
  {
    assert FileName(root + ["node_modules", "index.js"]) == "index.js";
    assert FileName(root + ["node_modules"]) == "node_modules";
    assert "index.js"[0] != 'a';
  }

  /** Below the root the manifest has the rest of the path. */
  lemma RelativeBelow(root: Path, rest: Path)
    ensures Relative(root, root + rest) == rest
    ensures root != [] ==> Relative(root, []) == []
  {
  }

  /** Every accepted entry is there, in the order of the walk, and nothing else is. */
  lemma {:induction false} AcceptedInOrder(walk: seq<Entry>, i: nat)
    requires i < |walk|
    ensures var n := |AcceptedOf(walk[..i])|;
            && n <= |AcceptedOf(walk)| && AcceptedOf(walk)[..n] == AcceptedOf(walk[..i])
            && (Accepted(walk[i]) ==> n < |AcceptedOf(walk)| && AcceptedOf(walk)[n] == walk[i])
            && |AcceptedOf(walk[..i + 1])| == n + (if Accepted(walk[i]) then 1 else 0)
    decreases |walk|
  {
    hide Accepted;
    var m := |walk| - 1;
    assert walk[..i + 1][..i] == walk[..i];
    if i < m {
      AcceptedInOrder(walk[..m], i);
      assert walk[..m][..i] == walk[..i] && walk[..m][..i + 1] == walk[..i + 1];
    } else {
      assert walk[..i + 1] == walk;
    }
  }

  // ---- what is read

  function Concat(contents: seq<seq<Byte>>): seq<Byte> {
    if contents == [] then [] else Concat(contents[..|contents| - 1]) + contents[|contents| - 1]
  }

  /** Concatenation keeps the order of the contents. */
  lemma {:induction false} ConcatAppend(x: seq<seq<Byte>>, y: seq<seq<Byte>>)
    ensures Concat(x + y) == Concat(x) + Concat(y)
    decreases |y|
  {
    if y == [] {
      assert x + y == x;
    } else {
      var n := |y| - 1;
      assert (x + y)[..|x + y| - 1] == x + y[..n];
      ConcatAppend(x, y[..n]);
    }
  }

  function DataOf(files: seq<Entry>): (contents: seq<seq<Byte>>)
    ensures |contents| == |files|
  {
    seq(|files|, i requires 0 <= i < |files| => files[i].data)
  }

  /** No read of the file fails. */
  ghost predicate ErrorFree(e: Entry) {
    forall i: nat :: e.plan(i) >= 0
  }

  /** A hash that is fed piece by piece; its value is the hash of everything fed so far. */
  class Hasher {
    const sha: seq<Byte> -> string
    var fed: seq<Byte>

    constructor (sha: seq<Byte> -> string)
      ensures this.sha == sha && fed == []
    {
      this.sha, fed := sha, [];
    }

    method Update(piece: seq<Byte>)
      modifies this
      ensures fed == old(fed) + piece
    {
      fed := fed + piece;
    }

    function Finalize(): string
      reads this
    {
      sha(fed)
    }
  }

  /** The next read into the buffer; nothing at the end of the file, or when the read fails. */
  method NextPiece(file: File, buf: array<Byte>) returns (piece: seq<Byte>)
    requires file.pos <= |file.data| && buf.Length > 0
    modifies file`pos, file`calls, buf
    ensures file.pos == old(file.pos) + |piece| <= |file.data|
    ensures piece == file.data[old(file.pos)..file.pos]
    ensures piece == [] ==> file.pos == |file.data| || exists i: nat :: file.plan(i) < 0
  {
    ghost var calls := file.calls;
    var r := file.Read(buf, 0);
    if r.IoError? {
      assert file.plan(calls) < 0;
      return [];
    }
    assert buf[..0] == [];
    return buf[..r.n];
  }

  /** The read loop of one file: feeds both hashers and counts, until the file ends or a read fails. */
  method HashFile(e: Entry, global: Hasher, own: Hasher) returns (size: nat, ghost content: seq<Byte>)
    requires global != own && own.fed == []
    modifies global, own
    ensures own.fed == content && global.fed == old(global.fed) + content && size == |content|
    ensures content <= e.data && (ErrorFree(e) ==> content == e.data)
  {
    var file := new File(e.data, e.plan);
    var buf := new Byte[65536];
    size, content := 0, [];
    while true
      invariant file.data == e.data && file.plan == e.plan
      invariant size == file.pos == |content| <= |e.data| && content == e.data[..file.pos]
      invariant own.fed == content && global.fed == old(global.fed) + content
      decreases |e.data| - file.pos
    {
      var piece := NextPiece(file, buf);
      if piece == [] { break; }
      own.Update(piece);
      global.Update(piece);
      size, content := size + |piece|, content + piece;
    }
  }

  /** What collecting a walk has to produce; `contents` is what was read of each accepted file: all of it
      unless a read failed, and then what came before. */
  ghost predicate Collected(root: Path, walk: seq<Entry>, sha: seq<Byte> -> string, contents: seq<seq<Byte>>,
                            files: seq<Path>, digest: string, m: Manifest)
  {
    var accepted := AcceptedOf(walk);
    && digest == sha(Concat(contents))
    && |files| == |m.files| == m.totalFiles == |contents| == |accepted|
    && m.totalSize == |Concat(contents)|
    && (forall i :: 0 <= i < |accepted| ==>
          && contents[i] <= accepted[i].data && (ErrorFree(accepted[i]) ==> contents[i] == accepted[i].data)
          && files[i] == accepted[i].path && m.files[i].path == Relative(root, accepted[i].path)
          && m.files[i].sha == sha(contents[i]) && m.files[i].size == |contents[i]|)
  }

  /** One pass over the walk: the digest is the hash of all accepted files in walk order, and the
      manifest describes them one by one. */
  method CollectFiles(root: Path, walk: seq<Entry>, sha: seq<Byte> -> string)
    returns (files: seq<Path>, digest: string, manifest: Manifest)
    ensures exists contents :: Collected(root, walk, sha, contents, files, digest, manifest)
  {
    var global := new Hasher(sha);
    var entries: seq<ManifestEntry> := [];
    var totalSize := 0;
    files := [];
    ghost var contents := [];
    assert |walk[..0]| == 0;
    for k := 0 to |walk|
      invariant global.sha == sha && fresh(global)
      invariant global.fed == Concat(contents) && totalSize == |Concat(contents)|
      invariant var accepted := AcceptedOf(walk[..k]);
                && |files| == |entries| == |contents| == |accepted|
                && forall i :: 0 <= i < |accepted| ==>
                     && contents[i] <= accepted[i].data && (ErrorFree(accepted[i]) ==> contents[i] == accepted[i].data)
                     && files[i] == accepted[i].path && entries[i].path == Relative(root, accepted[i].path)
                     && entries[i].sha == sha(contents[i]) && entries[i].size == |contents[i]|
    {
      var e := walk[k];
      assert walk[..k + 1][..k] == walk[..k];
      if ShouldSkip(FileName(e.path)) || e.ignored || !e.isFile || !e.opens {
        assert AcceptedOf(walk[..k + 1]) == AcceptedOf(walk[..k]);
        continue;
      }
      ghost var before := AcceptedOf(walk[..k]);
      var own := new Hasher(sha);
      ghost var content;
      var size;
      size, content := HashFile(e, global, own);
      entries := entries + [ManifestEntry(Relative(root, e.path), size, own.Finalize())];
      totalSize := totalSize + size;
      files := files + [e.path];
      assert (contents + [content])[..|contents|] == contents;
      contents := contents + [content];
      assert AcceptedOf(walk[..k + 1]) == before + [e];
    }
    assert walk[..|walk|] == walk;
    digest := global.Finalize();
    manifest := Manifest(entries, |entries|, totalSize);
    assert Collected(root, walk, sha, contents, files, digest, manifest);
  }

  // ---- without read errors, only the data count

  ghost predicate AllErrorFree(walk: seq<Entry>) {
    forall i :: 0 <= i < |walk| && Accepted(walk[i]) ==> ErrorFree(walk[i])
  }

  lemma {:induction false} AcceptedErrorFree(walk: seq<Entry>)
    requires AllErrorFree(walk)
    ensures forall i :: 0 <= i < |AcceptedOf(walk)| ==> ErrorFree(AcceptedOf(walk)[i])
    decreases |walk|
  {
    if |walk| > 0 { AcceptedErrorFree(walk[..|walk| - 1]); }
  }

  /** Without read errors the digest is the hash of the accepted files' data, one after the other, and the
      manifest has the hash and the length of each file's data. */
  lemma CollectedData(root: Path, walk: seq<Entry>, sha: seq<Byte> -> string, contents: seq<seq<Byte>>,
                      files: seq<Path>, digest: string, m: Manifest)
    requires AllErrorFree(walk) && Collected(root, walk, sha, contents, files, digest, m)
    ensures var accepted := AcceptedOf(walk);
            && digest == sha(Concat(DataOf(accepted))) && m.totalSize == |Concat(DataOf(accepted))|
            && |m.files| == |accepted|
            && forall i :: 0 <= i < |accepted| ==>
                 m.files[i].sha == sha(accepted[i].data) && m.files[i].size == |accepted[i].data|
  {
    AcceptedErrorFree(walk);
    assert contents == DataOf(AcceptedOf(walk));
  }

  /** The same files, read in whatever other pieces. */
  predicate SameFiles(x: seq<Entry>, y: seq<Entry>) {
    |x| == |y| && forall i :: 0 <= i < |x| ==> SameFile(x[i], y[i])
  }

  predicate SameFile(a: Entry, b: Entry) {
    a.path == b.path && a.ignored == b.ignored && a.isFile == b.isFile && a.opens == b.opens && a.data == b.data
  }

  lemma {:induction false} SplitInsensitive(x: seq<Entry>, y: seq<Entry>)
    requires SameFiles(x, y)
    ensures SameFiles(AcceptedOf(x), AcceptedOf(y))
    decreases |x|
  {
    if |x| > 0 {
      var n := |x| - 1;
      SplitInsensitive(x[..n], y[..n]);
      assert SameFile(x[n], y[n]);
    }
  }

  /** Two collections of the same files without read errors agree in everything, however the reads were
      split. */
  lemma DigestIndependentOfReads(root: Path, x: seq<Entry>, y: seq<Entry>, sha: seq<Byte> -> string,
                                 cx: seq<seq<Byte>>, fx: seq<Path>, dx: string, mx: Manifest,
                                 cy: seq<seq<Byte>>, fy: seq<Path>, dy: string, my: Manifest)
    requires SameFiles(x, y) && AllErrorFree(x) && AllErrorFree(y)
    requires Collected(root, x, sha, cx, fx, dx, mx) && Collected(root, y, sha, cy, fy, dy, my)
    ensures dx == dy && fx == fy && mx == my
  {
    SplitInsensitive(x, y);
    CollectedData(root, x, sha, cx, fx, dx, mx);
    CollectedData(root, y, sha, cy, fy, dy, my);
    var ax, ay := AcceptedOf(x), AcceptedOf(y);
    forall i | 0 <= i < |ax| ensures ax[i].data == ay[i].data && fx[i] == fy[i] && mx.files[i] == my.files[i] {
      assert SameFile(ax[i], ay[i]);
    }
    assert DataOf(ax) == DataOf(ay);
    assert mx.files == my.files;
  }
}
