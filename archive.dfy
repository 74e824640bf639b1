/** The entry names of the bag's ZIP archive, `create_zip_data`
    (osf_pigeon/pigeon.py:59-68): every file under the staging directory is
    written under its path with the staging directory's prefix removed,
    and `zipfile` drops the separators that then lead the name. The
    directory walk is given as the sequence of steps `os.walk` yields. */
module Archive {

  /** One step of `os.walk(temp_dir)`: a directory and the names of the
      files directly inside it. */
  datatype WalkStep = WalkStep(root: string, dirs: seq<string>, files: seq<string>)

  /** One member of the archive: the file it was read from and its name. */
  datatype ZipEntry = ZipEntry(source: string, name: string)

  /** `os.path.join(a, b)` on POSIX. */
  function Join(a: string, b: string): (p: string)
    ensures b != [] && b[0] == '/' ==> p == b
  {
    if b != [] && b[0] == '/' then b
    else if a == [] || a[|a| - 1] == '/' then a + b
    else a + "/" + b
  }

  /** `re.sub(f"^{temp_dir}", "", path)`, reading the directory name
      literally. */
  function StripPrefix(prefix: string, path: string): (r: string)
    ensures |prefix| <= |path| && path[..|prefix|] == prefix ==> r == path[|prefix|..]
  {
    if |prefix| <= |path| && path[..|prefix|] == prefix then path[|prefix|..] else path
  }

  /** The name `zipfile` stores for an `arcname`: without its leading
      separators. */
  function ZipName(arcname: string): (name: string)
    ensures name == [] || name[0] != '/'
    ensures arcname == [] || arcname[0] != '/' ==> name == arcname
  {
    if arcname != [] && arcname[0] == '/' then ZipName(arcname[1..]) else arcname
  }

  /** The entry `create_zip_data` writes for `file` found in `root`. */
  function EntryFor(tempDir: string, root: string, file: string): (e: ZipEntry)
    ensures e.source == Join(root, file)
    ensures e.name == [] || e.name[0] != '/'
  {
    var filePath := Join(root, file);
    ZipEntry(filePath, ZipName(StripPrefix(tempDir, filePath)))
  }

  /** The entries for the files of one directory, in order. */
  function DirEntries(tempDir: string, root: string, files: seq<string>): (es: seq<ZipEntry>)
    ensures |es| == |files|
    ensures forall i :: 0 <= i < |files| ==> es[i] == EntryFor(tempDir, root, files[i])
  {
    if files == [] then []
    else DirEntries(tempDir, root, files[..|files| - 1]) + [EntryFor(tempDir, root, files[|files| - 1])]
  }

  /** The number of files the walk finds. */
  function FileCount(walk: seq<WalkStep>): nat {
    if walk == [] then 0 else FileCount(walk[..|walk| - 1]) + |walk[|walk| - 1].files|
  }

  /** The archive's entries for a whole walk: one per file found, in walk
      order, none of them named with a leading separator. */
  function Entries(tempDir: string, walk: seq<WalkStep>): (es: seq<ZipEntry>)
    ensures |es| == FileCount(walk)
    ensures forall i :: 0 <= i < |es| ==> es[i].name == [] || es[i].name[0] != '/'
  {
    if walk == [] then []
    else
      var last := walk[|walk| - 1];
      Entries(tempDir, walk[..|walk| - 1]) + DirEntries(tempDir, last.root, last.files)
  }

  /** `e` is the entry of some file in some directory of the walk. */
  predicate WrittenFor(tempDir: string, walk: seq<WalkStep>, e: ZipEntry) {
    exists k, j :: 0 <= k < |walk| && 0 <= j < |walk[k].files| && e == EntryFor(tempDir, walk[k].root, walk[k].files[j])
  }

  /** An entry is in the archive exactly when it is the entry of some file
      in some directory of the walk. */
  lemma {:induction false} EntriesFromWalk(tempDir: string, walk: seq<WalkStep>, e: ZipEntry)
    ensures e in Entries(tempDir, walk) <==> WrittenFor(tempDir, walk, e)
  {
    if walk != [] {
      var init := walk[..|walk| - 1];
      EntriesFromWalk(tempDir, init, e);
      if e in Entries(tempDir, walk) {
        EntryFromWalk(tempDir, walk, e);
      }
      if WrittenFor(tempDir, walk, e) {
        var k: nat, j: nat :| k < |walk| && j < |walk[k].files| && e == EntryFor(tempDir, walk[k].root, walk[k].files[j]);
        WalkToEntry(tempDir, walk, k, j);
      }
    }
  }

  lemma EntryFromWalk(tempDir: string, walk: seq<WalkStep>, e: ZipEntry)
    requires walk != [] && e in Entries(tempDir, walk)
    requires e in Entries(tempDir, walk[..|walk| - 1]) ==> WrittenFor(tempDir, walk[..|walk| - 1], e)
    ensures WrittenFor(tempDir, walk, e)
  {
    var init, last := walk[..|walk| - 1], walk[|walk| - 1];
    var head, tail := Entries(tempDir, init), DirEntries(tempDir, last.root, last.files);
    assert Entries(tempDir, walk) == head + tail;
    if e in head {
      var k, j :| 0 <= k < |init| && 0 <= j < |init[k].files| && e == EntryFor(tempDir, init[k].root, init[k].files[j]);
      assert init[k] == walk[k];
    } else {
      var j :| 0 <= j < |tail| && tail[j] == e;
      assert e == EntryFor(tempDir, walk[|walk| - 1].root, walk[|walk| - 1].files[j]);
    }
  }

  lemma {:induction false} WalkToEntry(tempDir: string, walk: seq<WalkStep>, k: nat, j: nat)
    requires k < |walk| && j < |walk[k].files|
    ensures EntryFor(tempDir, walk[k].root, walk[k].files[j]) in Entries(tempDir, walk)
  {
    var init, last := walk[..|walk| - 1], walk[|walk| - 1];
    var head, tail := Entries(tempDir, init), DirEntries(tempDir, last.root, last.files);
    assert Entries(tempDir, walk) == head + tail;
    if k < |init| {
      assert init[k] == walk[k];
      WalkToEntry(tempDir, init, k, j);
    } else {
      assert k == |walk| - 1;
      assert tail[j] == EntryFor(tempDir, walk[k].root, walk[k].files[j]);
    }
  }

  /** The `zipfile.ZipFile` being written. */
  class ZipArchive {
    var entries: seq<ZipEntry>

    constructor ()
      ensures entries == []
    {
      entries := [];
    }

    /** `zip_file.write(file_path, arcname=name)`. */
    method Write(filePath: string, arcname: string)
      modifies this
      ensures entries == old(entries) + [ZipEntry(filePath, ZipName(arcname))]
    {
      entries := entries + [ZipEntry(filePath, ZipName(arcname))];
    }
  }

  /** The inner loop of `create_zip_data`: one entry per file of `root`. */
  method WriteDirectory(zip: ZipArchive, tempDir: string, root: string, files: seq<string>)
    modifies zip
    ensures zip.entries == old(zip.entries) + DirEntries(tempDir, root, files)
  {
    for j := 0 to |files|
      invariant zip.entries == old(zip.entries) + DirEntries(tempDir, root, files[..j])
    {
      var filePath := Join(root, files[j]);
      var fileName := StripPrefix(tempDir, filePath);
      zip.Write(filePath, fileName);
      assert files[..j + 1][..j] == files[..j];
    }
    assert files[..|files|] == files;
  }

  /** `create_zip_data(temp_dir)`, the walk given as `walk`: the outer loop
      over the walk's directories. */
  method CreateZipData(tempDir: string, walk: seq<WalkStep>) returns (zip: ZipArchive)
    ensures fresh(zip)
    ensures zip.entries == Entries(tempDir, walk)
  {
    zip := new ZipArchive();
    for i := 0 to |walk|
      invariant zip.entries == Entries(tempDir, walk[..i])
    {
      WriteDirectory(zip, tempDir, walk[i].root, walk[i].files);
      assert walk[..i + 1][..i] == walk[..i];
    }
    assert walk[..|walk|] == walk;
  }

  /** A file directly in the staging directory is stored under its own
      name (`test_file.txt` for `<temp_dir>/test_file.txt`). */
  lemma TopLevelFileName(tempDir: string, file: string)
    requires file != [] && file[0] != '/'
    ensures EntryFor(tempDir, tempDir, file).name == file
  {
    var filePath := Join(tempDir, file);
    if tempDir == [] || tempDir[|tempDir| - 1] == '/' {
      assert filePath[..|tempDir|] == tempDir && filePath[|tempDir|..] == file;
    } else {
      assert filePath[..|tempDir|] == tempDir && filePath[|tempDir|..] == "/" + file;
      assert ("/" + file)[1..] == file;
    }
  }

  /** A file in a sub-directory of the staging directory is stored under
      its path relative to the staging directory. */
  lemma NestedFileName(tempDir: string, sub: string, file: string)
    requires tempDir != []
    requires sub != [] && sub[0] != '/' && sub[|sub| - 1] != '/'
    requires file != [] && file[0] != '/'
    ensures EntryFor(tempDir, Join(tempDir, sub), file).name == sub + "/" + file
  {
    var root := Join(tempDir, sub);
    var filePath := Join(root, file);
    assert root[|root| - 1] == sub[|sub| - 1];
    assert filePath == root + "/" + file;
    if tempDir[|tempDir| - 1] == '/' {
      assert filePath == tempDir + (sub + "/" + file);
      assert filePath[..|tempDir|] == tempDir && filePath[|tempDir|..] == sub + "/" + file;
    } else {
      assert filePath == tempDir + ("/" + sub + "/" + file);
      assert filePath[..|tempDir|] == tempDir && filePath[|tempDir|..] == "/" + sub + "/" + file;
      assert ("/" + sub + "/" + file)[1..] == sub + "/" + file;
    }
  }

  /** A walk of the staging directory alone, holding one file, gives an
      archive of exactly one entry named after that file. */
  lemma SingleFileArchive(tempDir: string, file: string)
    requires file != [] && file[0] != '/'
    ensures Entries(tempDir, [WalkStep(tempDir, [], [file])]) == [ZipEntry(Join(tempDir, file), file)]
  {
    TopLevelFileName(tempDir, file);
    var walk := [WalkStep(tempDir, [], [file])];
    assert walk[..0] == [];
    assert DirEntries(tempDir, tempDir, [file]) == [EntryFor(tempDir, tempDir, file)];
  }
}
