/** What the curator does when it finds the files of an earlier run in its
    output directory (file_creator.go): it compares the saved checksum and
    version with the current ones, warns, and moves the old files aside
    under the old save timestamp. The file system is a map from path to
    contents. */
module Staleness {
  import opened Basics
  import opened TextPrep

  type FileSystem = map<string, string>

  const InputChanged := "\nYour input file has changed."
  const TaggerUpdated := "\nYour gntagger is updated."
  const BackedUp := " Older data are backed up for comparison."

  /** The warning of `ShowWarningIfPreviousData`: none without an earlier
      checksum; a changed input wins over a changed curator version; an
      unchanged pair of checksum and version gives none. */
  function Warning(current: TextMeta, previous: TextMeta): (w: string)
    ensures w == "" <==>
      previous.checksum == "" || (current.checksum == previous.checksum && current.version == previous.version)
    ensures previous.checksum != "" && current.checksum != previous.checksum ==> w == InputChanged + BackedUp
    ensures previous.checksum != "" && current.checksum == previous.checksum && current.version != previous.version ==>
      w == TaggerUpdated + BackedUp
  {
    if previous.checksum == "" then ""
    else if current.checksum != previous.checksum then InputChanged + BackedUp
    else if current.version != previous.version then TaggerUpdated + BackedUp
    else ""
  }

  /** `showWarning`: what is printed before waiting for Enter, with the
      newline `fmt.Println` adds. */
  function Prompt(warning: string): (s: string)
    ensures |s| > |warning| && s[..|warning|] == warning
    ensures s[|s| - 1] == '\n'
  {
    warning + "\n\nPress \"Enter\" to continue." + "\n"
  }

  /** Every file of the table exists. */
  predicate AllPresent(t: Text, fs: FileSystem)
  {
    forall ft :: ft in t.files ==> t.FilePath(ft) in fs
  }

  /** Where `moveOldFiles` puts the file of type `ft`. */
  function Backup(t: Text, timestamp: string, ft: FileType): string
    requires ft in t.files
  {
    JoinPath(t.path, timestamp + "_" + t.files[ft])
  }

  /** `os.Rename`: the contents move to the new path, replacing what was
      there, and the old path disappears. */
  function Rename(fs: FileSystem, src: string, dst: string): (r: FileSystem)
    requires src in fs
    ensures dst in r && r[dst] == fs[src]
    ensures src != dst ==> src !in r
    ensures forall p :: p != src && p != dst ==> (p in r <==> p in fs) && (p in r ==> r[p] == fs[p])
  {
    (fs - {src})[dst := fs[src]]
  }

  /** The paths the backup reads or writes. */
  function Touched(t: Text, timestamp: string): set<string>
    requires t.files == FileTable
  {
    (set ft | ft in FileTable :: t.FilePath(ft))
    + (set ft | ft in FileTable :: Backup(t, timestamp, ft))
  }

  /** The files of the types in `done` have moved to their backup paths. */
  ghost predicate MovedDone(t: Text, timestamp: string, before: FileSystem, after: FileSystem, done: set<FileType>)
    requires t.files == FileTable
  {
    forall ft :: ft in FileTable && ft in done ==>
      && t.FilePath(ft) in before
      && t.FilePath(ft) !in after
      && Backup(t, timestamp, ft) in after
      && after[Backup(t, timestamp, ft)] == before[t.FilePath(ft)]
  }

  /** The files of the other types are where they were. */
  ghost predicate Pending(t: Text, before: FileSystem, after: FileSystem, done: set<FileType>)
    requires t.files == FileTable
  {
    forall ft :: ft in FileTable && ft !in done ==>
      && (t.FilePath(ft) in after <==> t.FilePath(ft) in before)
      && (t.FilePath(ft) in after ==> after[t.FilePath(ft)] == before[t.FilePath(ft)])
  }

  /** Every path outside `touched` is as it was. */
  ghost predicate Untouched(touched: set<string>, before: FileSystem, after: FileSystem)
  {
    forall p :: p !in touched ==> (p in after <==> p in before) && (p in after ==> after[p] == before[p])
  }

  /** The files of the types in `done` have moved to their backup paths;
      the others are where they were; no other path changed. */
  ghost predicate Moved(t: Text, timestamp: string, before: FileSystem, after: FileSystem, done: set<FileType>)
    requires t.files == FileTable
  {
    && MovedDone(t, timestamp, before, after, done)
    && Pending(t, before, after, done)
    && Untouched(Touched(t, timestamp), before, after)
  }

  /** Joining one directory with two different names gives two different
      paths. */
  lemma JoinPathInjective(dir: string, a: string, b: string)
    requires JoinPath(dir, a) == JoinPath(dir, b)
    ensures a == b
  {
    if dir != [] {
      var prefix := if dir[|dir| - 1] == '/' then dir else dir + "/";
      assert JoinPath(dir, a) == prefix + a && JoinPath(dir, b) == prefix + b;
      assert a == (prefix + a)[|prefix|..];
      assert b == (prefix + b)[|prefix|..];
    }
  }

  /** Different names joined to one directory give different paths. */
  lemma JoinPathDistinct(dir: string, a: string, b: string)
    requires a != b
    ensures JoinPath(dir, a) != JoinPath(dir, b)
  {
    if JoinPath(dir, a) == JoinPath(dir, b) {
      JoinPathInjective(dir, a, b);
    }
  }

  /** A common prefix keeps different names different. */
  lemma PrefixDistinct(prefix: string, a: string, b: string)
    requires a != b
    ensures prefix + a != prefix + b
  {
    assert (prefix + a)[|prefix|..] == a;
    assert (prefix + b)[|prefix|..] == b;
  }

  /** No table name holds '_', and every backup name does. */
  lemma BackupNamesDiffer(timestamp: string, ft: FileType, ft2: FileType)
    ensures timestamp + "_" + FileTable[ft] != FileTable[ft2]
  {
    var name := timestamp + "_" + FileTable[ft];
    assert name[|timestamp|] == '_';
    assert '_' !in FileTable[ft2];
  }

  /** With the table of `NewText`, the three sources and the three
      backups are six different paths. */
  lemma PathsDistinct(t: Text, timestamp: string, ft: FileType, ft2: FileType)
    requires t.files == FileTable
    ensures t.FilePath(ft) != Backup(t, timestamp, ft2)
    ensures ft != ft2 ==> t.FilePath(ft) != t.FilePath(ft2)
    ensures ft != ft2 ==> Backup(t, timestamp, ft) != Backup(t, timestamp, ft2)
  {
    BackupNamesDiffer(timestamp, ft2, ft);
    JoinPathDistinct(t.path, FileTable[ft], timestamp + "_" + FileTable[ft2]);
    if ft != ft2 {
      assert FileTable[ft] != FileTable[ft2];
      JoinPathDistinct(t.path, FileTable[ft], FileTable[ft2]);
      PrefixDistinct(timestamp + "_", FileTable[ft], FileTable[ft2]);
      JoinPathDistinct(t.path, timestamp + "_" + FileTable[ft], timestamp + "_" + FileTable[ft2]);
    }
  }

  /** One rename keeps `Moved` with one more type done. */
  lemma MoveStep(t: Text, timestamp: string, before: FileSystem, fs: FileSystem, done: set<FileType>, ft: FileType)
    requires t.files == FileTable && ft in FileTable && ft !in done
    requires Moved(t, timestamp, before, fs, done)
    requires t.FilePath(ft) in fs
    ensures Moved(t, timestamp, before, Rename(fs, t.FilePath(ft), Backup(t, timestamp, ft)), done + {ft})
  {
    var src, dst := t.FilePath(ft), Backup(t, timestamp, ft);
    var after := Rename(fs, src, dst);
    PathsDistinct(t, timestamp, ft, ft);
    forall ft2 | ft2 in FileTable && ft2 in done + {ft}
      ensures t.FilePath(ft2) in before && t.FilePath(ft2) !in after
      ensures Backup(t, timestamp, ft2) in after && after[Backup(t, timestamp, ft2)] == before[t.FilePath(ft2)]
    {
      if ft2 != ft {
        PathsDistinct(t, timestamp, ft2, ft);
        PathsDistinct(t, timestamp, ft, ft2);
      }
    }
    forall ft2 | ft2 in FileTable && ft2 !in done + {ft}
      ensures t.FilePath(ft2) in after <==> t.FilePath(ft2) in before
      ensures t.FilePath(ft2) in after ==> after[t.FilePath(ft2)] == before[t.FilePath(ft2)]
    {
      PathsDistinct(t, timestamp, ft2, ft);
    }
    assert src in Touched(t, timestamp) && dst in Touched(t, timestamp);
  }

  /** `moveOldFiles`: every file of the table goes to its backup path;
      a missing file stops the run (`log.Panic`), here `None`. */
  method MoveOldFiles(t: Text, fs: FileSystem, timestamp: string) returns (r: Option<FileSystem>)
    requires t.files == FileTable
    ensures r.None? <==> !AllPresent(t, fs)
    ensures r.Some? ==> Moved(t, timestamp, fs, r.value, FileTable.Keys)
  {
    var current := fs;
    var rest := t.files.Keys;
    ghost var done: set<FileType> := {};
    while rest != {}
      invariant rest !! done && rest + done == FileTable.Keys
      invariant Moved(t, timestamp, fs, current, done)
      decreases rest
    {
      var ft :| ft in rest;
      var src := t.FilePath(ft);
      if src !in current {
        return None;
      }
      MoveStep(t, timestamp, fs, current, done, ft);
      current := Rename(current, src, Backup(t, timestamp, ft));
      rest := rest - {ft};
      done := done + {ft};
    }
    r := Some(current);
  }

  /** `previousDataChecksums`: the empty record when a file of the table
      is missing, else the decoded meta file; a meta file that does not
      decode stops the run, here `None`. */
  method PreviousMeta(t: Text, fs: FileSystem, decode: string -> Option<TextMeta>) returns (r: Option<TextMeta>)
    requires t.files == FileTable
    ensures !AllPresent(t, fs) ==> r == Some(TextMeta("", "", ""))
    ensures AllPresent(t, fs) ==> r == decode(fs[t.FilePath(MetaFile)])
  {
    var rest := t.files.Keys;
    while rest != {}
      invariant rest <= FileTable.Keys
      invariant forall ft :: ft in FileTable && ft !in rest ==> t.FilePath(ft) in fs
      decreases rest
    {
      var ft :| ft in rest;
      if t.FilePath(ft) !in fs {
        return Some(TextMeta("", "", ""));
      }
      rest := rest - {ft};
    }
    r := decode(fs[t.FilePath(MetaFile)]);
  }

  /** What a start-up leaves behind: the message shown, if any, and the
      files. */
  datatype Outcome = Outcome(shown: Option<string>, files: FileSystem)

  /** `ShowWarningIfPreviousData`; `None` where the run panics. */
  method ShowWarningIfPreviousData(t: Text, fs: FileSystem, decode: string -> Option<TextMeta>) returns (r: Option<Outcome>)
    requires t.files == FileTable
    ensures !AllPresent(t, fs) ==> r == Some(Outcome(None, fs))
    ensures AllPresent(t, fs) && decode(fs[t.FilePath(MetaFile)]).None? ==> r.None?
    ensures AllPresent(t, fs) && decode(fs[t.FilePath(MetaFile)]).Some? ==>
      var previous := decode(fs[t.FilePath(MetaFile)]).value;
      var w := Warning(t.meta, previous);
      && (w == "" ==> r == Some(Outcome(None, fs)))
      && (w != "" ==> r.Some? && r.value.shown == Some(Prompt(w)) && Moved(t, previous.timestamp, fs, r.value.files, FileTable.Keys))
  {
    var previous := PreviousMeta(t, fs, decode);
    if previous.None? {
      return None;
    }
    var prev := previous.value;
    var warning := "";
    if prev.checksum != "" {
      if t.meta.checksum != prev.checksum {
        warning := InputChanged;
      } else if t.meta.version != prev.version {
        warning := TaggerUpdated;
      }
      if warning != "" {
        warning := warning + BackedUp;
        var moved := MoveOldFiles(t, fs, prev.timestamp);
        return Some(Outcome(Some(Prompt(warning)), moved.value));
      }
    }
    assert warning == Warning(t.meta, prev);
    r := Some(Outcome(None, fs));
  }
}
