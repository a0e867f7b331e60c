/**
 * Promotion of a run's artifact directory to the "latest" directory:
 * the old latest tree is removed, then the current tree is copied over.
 */
module Utils {
  import opened Outcomes

  /** A directory tree: relative file path to file contents. */
  type Tree = map<string, seq<bv8>>

  /** The filesystem as the trees found at each top-level directory path. */
  type Directories = map<string, Tree>

  /** The filesystem after an update, with the outcome of the call. */
  datatype Promotion = Promotion(dirs: Directories, result: Result<()>)

  /**
   * `update_latest_artifacts`: `rmtree(latest)` when it exists, then
   * `copytree(current, latest)`. There is no try/except, so a missing
   * source surfaces as the bare `FileNotFoundError`, after the old latest
   * tree is already gone.
   */
  function Promote(dirs: Directories, current: string, latest: string): (p: Promotion)
    ensures p.result.Ok? <==> current in dirs && current != latest
    ensures p.result.Err? ==> p.result.error == FileNotFound(current) && !IsWrapped(p.result.error)
    ensures p.result.Ok? ==> latest in p.dirs && p.dirs[latest] == dirs[current]
    ensures p.result.Err? ==> latest !in p.dirs
    ensures forall d :: d != latest ==> (d in p.dirs <==> d in dirs)
    ensures forall d :: d != latest && d in dirs ==> p.dirs[d] == dirs[d]
  {
    var cleared := if latest in dirs then dirs - {latest} else dirs;
    if current in cleared then Promotion(cleared[latest := cleared[current]], Ok(()))
    else Promotion(cleared, Err(FileNotFound(current)))
  }

  /**
   * Nothing is merged: after a successful promotion a file is in the
   * latest tree exactly when it is in the current tree, whatever the
   * previous latest tree held.
   */
  lemma NoMerge(dirs: Directories, current: string, latest: string, file: string)
    requires Promote(dirs, current, latest).result.Ok?
    ensures file in Promote(dirs, current, latest).dirs[latest] <==> file in dirs[current]
    ensures latest in dirs && file in dirs[latest] && file !in dirs[current] ==>
              file !in Promote(dirs, current, latest).dirs[latest]
  {
  }

  /** Promoting a directory onto itself deletes it and then fails to copy it. */
  lemma SelfPromotionLosesTree(dirs: Directories, dir: string)
    ensures Promote(dirs, dir, dir) == Promotion(dirs - {dir}, Err(FileNotFound(dir)))
  {
  }

  /** A filesystem whose directories a promotion updates in place. */
  class FileSystem {
    var dirs: Directories

    constructor(initial: Directories)
      ensures dirs == initial
    {
      dirs := initial;
    }

    /** Removes `latest` when present, then copies `current` onto it. */
    method UpdateLatestArtifacts(current: string, latest: string) returns (r: Result<()>)
      modifies this
      ensures Promotion(dirs, r) == Promote(old(dirs), current, latest)
    {
      if latest in dirs {
        dirs := dirs - {latest};
      }
      if current !in dirs {
        return Err(FileNotFound(current));
      }
      dirs := dirs[latest := dirs[current]];
      return Ok(());
    }
  }
}
