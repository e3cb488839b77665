/**
 Moving a finished file aside, or removing it (utils/soft_delete.go), over a file system whose calls can fail.
 */
module SoftDelete {
  import opened Wrappers
  import Paths

  datatype FsError = NotExist | CrossDevice | Denied

  /** What the operating system will let through; a copy that breaks off has written `copied` bytes at most. */
  datatype Luck = Luck(
    mayRename: bool, mayRead: bool, mayWrite: bool, wholeCopy: bool, copied: nat, mayRemove: bool)

  /** `filepath.Join(dir, filepath.Base(path))` for a cleaned directory. */
  function Target(dir: string, path: string): string {
    dir + "/" + Paths.Base(path)
  }

  /** The target is a file of the soft-delete directory, under the name the file has in its own. */
  lemma TargetKeepsName(dir: string, parent: string, name: string)
    requires name != "" && '/' !in name
    ensures Target(dir, parent + ("/" + name)) == dir + ("/" + name)
    ensures Target(dir, name) == dir + ("/" + name)
  {
    Paths.BaseOfName(parent, name);
    assert dir + "/" + name == dir + ("/" + name);
  }

  class FileSystem {
    var files: map<string, string>
    const dirs: set<string>       // directories that exist
    const devices: bool           // whether the soft-delete directory is on another device

    constructor (files: map<string, string>, dirs: set<string>, devices: bool)
      ensures this.files == files && this.dirs == dirs && this.devices == devices
    {
      this.files, this.dirs, this.devices := files, dirs, devices;
    }

    /** Whether a rename into the soft-delete directory would have to cross devices. */
    predicate Crosses(dir: string, path: string) {
      devices && Target(dir, path) != path
    }

    /**
     `os.Rename` into the soft-delete directory. A missing source and a missing target directory give the same error.
     */
    method Rename(path: string, dir: string, luck: Luck) returns (err: Option<FsError>)
      modifies this
      ensures if dir !in dirs then err == Some(NotExist)
              else if Crosses(dir, path) then err == Some(CrossDevice)
              else if path !in old(files) then err == Some(NotExist)
              else if !luck.mayRename then err == Some(Denied)
              else err == None
      ensures files == if err == None then (old(files) - {path})[Target(dir, path) := old(files)[path]] else old(files)
    {
      if dir !in dirs {
        return Some(NotExist);
      }
      if Crosses(dir, path) {
        return Some(CrossDevice);
      }
      if path !in files {
        return Some(NotExist);
      }
      if !luck.mayRename {
        return Some(Denied);
      }
      files := (files - {path})[Target(dir, path) := files[path]];
      return None;
    }

    method Remove(path: string, luck: Luck) returns (err: Option<FsError>)
      modifies this
      ensures if path !in old(files) then err == Some(NotExist)
              else if !luck.mayRemove then err == Some(Denied)
              else err == None
      ensures files == if err == None then old(files) - {path} else old(files)
    {
      if path !in files {
        return Some(NotExist);
      }
      if !luck.mayRemove {
        return Some(Denied);
      }
      files := files - {path};
      return None;
    }

    /** The unexported `copy`; a copy that breaks off leaves a truncated target. */
    method Copy(from: string, to: string, luck: Luck) returns (err: Option<FsError>)
      modifies this
      ensures err == None <==> from in old(files) && luck.mayRead && luck.mayWrite && luck.wholeCopy
      ensures err == None ==> files == old(files)[to := old(files)[from]]
      ensures forall p :: p != to ==> (p in files <==> p in old(files)) && (p in files ==> files[p] == old(files)[p])
      ensures from in old(files) && luck.mayRead && luck.mayWrite && !luck.wholeCopy ==>
                && to in files && files[to] <= old(files)[from]
                && (files[to] == old(files)[from] <==> old(files)[from] == "")
      ensures from !in old(files) || !luck.mayRead || !luck.mayWrite ==> files == old(files)
    {
      if from !in files {
        return Some(NotExist);
      }
      if !luck.mayRead {
        return Some(Denied);
      }
      if !luck.mayWrite {
        return Some(Denied);
      }
      if !luck.wholeCopy {
        var whole := files[from];
        var kept := if whole == "" then 0 else if luck.copied < |whole| then luck.copied else |whole| - 1;
        files := files[to := whole[..kept]];
        return Some(Denied);
      }
      files := files[to := files[from]];
      return None;
    }

    /**
     `SoftDelete`. A nil result means the file is gone from where it was, never that a copy was kept, and the removal is
     tried whatever became of the move. Without a soft-delete directory, or with a missing one: removed without a copy.
     When the directory is the file's own: removed likewise. On one device: moved, or removed if the move fails. Across
     devices: copied and removed; a copy that breaks off leaves a truncated target, and the file goes all the same.
     */
    method Delete(path: string, dir: string, luck: Luck) returns (res: Option<FsError>)
      modifies this
      ensures res == None ==> path !in files
      ensures dir == "" || dir !in dirs ==>
                && (res == None <==> path !in old(files) || luck.mayRemove)
                && files == if luck.mayRemove then old(files) - {path} else old(files)
      ensures dir != "" && dir in dirs && Target(dir, path) == path ==>
                && (res == None <==> path !in old(files) || (luck.mayRename && luck.mayRemove))
                && files == if luck.mayRemove then old(files) - {path} else old(files)
      ensures dir != "" && dir in dirs && Target(dir, path) != path && !devices ==>
                && (res == None <==> path !in old(files) || luck.mayRename)
                && files == if path in old(files) && luck.mayRename then
                              (old(files) - {path})[Target(dir, path) := old(files)[path]]
                            else if luck.mayRemove then old(files) - {path} else old(files)
      ensures dir != "" && dir in dirs && Target(dir, path) != path && devices ==>
                && (res == None <==>
                      path in old(files) && luck.mayRead && luck.mayWrite && luck.wholeCopy && luck.mayRemove)
                && (path in files <==> path in old(files) && !luck.mayRemove)
                && (path in old(files) && luck.mayRead && luck.mayWrite ==>
                      && Target(dir, path) in files && files[Target(dir, path)] <= old(files)[path]
                      && (files[Target(dir, path)] == old(files)[path] <==> luck.wholeCopy || old(files)[path] == ""))
                && (path !in old(files) || !luck.mayRead || !luck.mayWrite ==>
                      files == if luck.mayRemove then old(files) - {path} else old(files))
      ensures forall p :: p != path && p != Target(dir, path) ==>
                (p in files <==> p in old(files)) && (p in files ==> files[p] == old(files)[p])
    {
      res := None;
      if dir != "" {
        var target := Target(dir, path);
        var err := Rename(path, dir, luck);
        if err != None && err != Some(NotExist) {
          res := err;
          if err == Some(CrossDevice) {
            res := Copy(path, target, luck);
          }
        }
      }
      var err := Remove(path, luck);
      if err != None && err != Some(NotExist) {
        res := err;
      }
    }

    /**
     The silent loss: when the soft-delete directory is missing, the rename's error looks like a missing source, the
     file is removed for good, and nil is returned.
     */
    method DeleteIntoMissingDirectory(path: string, dir: string, luck: Luck) returns (res: Option<FsError>)
      requires dir != "" && dir !in dirs && path in files && luck.mayRemove
      requires Target(dir, path) !in files && files[path] != ""
      modifies this
      ensures res == None && path !in files && Target(dir, path) !in files
      ensures files == old(files) - {path}
    {
      res := Delete(path, dir, luck);
    }
  }
}
