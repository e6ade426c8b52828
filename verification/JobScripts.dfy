/** Resolving a job name to its script (Resolve in internal/jobrunner/jobrunner.go). */
module JobScripts {
  import opened Strings
  import opened Paths
  import opened PathGuard
  import opened FileTree
  import opened Sandbox

  datatype Script = Source(path: string, text: string) | Escapes | NotAFile

  /** A name yields a script iff the path guard accepts it and it is an existing regular file; the
      script is then that file, and nothing is changed. Where the jobs directory ends in an
      ordinary name, the guard accepts exactly the destinations at or under it. */
  method ResolveJob(fs: FileSystem, jobsDir: string, name: string) returns (r: Script)
    requires fs.Valid()
    ensures var resolved := Resolve(Clean(jobsDir), name);
            && (r == Escapes <==> resolved == Escape)
            && (r.Source? <==> resolved.Inside? && IsFile(fs.tree, Locate(fs.cwd, resolved.path)))
            && (r.Source? ==>
                  r.path == resolved.path && fs.tree[Locate(fs.cwd, resolved.path)] == File(r.text))
    ensures OrdinaryBase(Clean(jobsDir)) ==>
            var dest := Destination(Clean(jobsDir), name);
            && (r == Escapes <==> IsAbs(name) || !Under(jobsDir, dest))
            && (r.Source? <==> !IsAbs(name) && Under(jobsDir, dest) && IsFile(fs.tree, Locate(fs.cwd, dest)))
            && (r.Source? ==>
                  Locate(fs.cwd, r.path) == Locate(fs.cwd, dest) &&
                  FileTree.At(fs.tree, Locate(fs.cwd, dest)) == There(File(r.text)))
  {
    var base := Clean(jobsDir);
    CleanIdempotent(jobsDir);
    if OrdinaryBase(base) { ResolveExact(base, name); }
    UnderCleaned(jobsDir, Destination(base, name));
    var resolved := Resolve(base, name);
    if resolved == Escape {
      return Escapes;
    }
    JoinedStack(base, name);
    CleanSameLocation(fs.cwd, Destination(base, name));
    var info := fs.Stat(resolved.path);
    match info {
      case There(File(text)) => r := Source(resolved.path, text);
      case _ => r := NotAFile;
    }
  }

  lemma UnderCleaned(base: string, p: string)
    ensures Under(Clean(base), p) <==> Under(base, p)
  {
    forall cwd ensures Locate(cwd, Clean(base)) == Locate(cwd, base) { CleanSameLocation(cwd, base); }
  }
}
