/** The host operating system as the filesystem node sees it: one process-wide working
    directory and a sequence of POSIX calls, each answered by an oracle that may depend on
    everything issued before it. The real filesystem contents are not visible. */
module HostOs {
  import opened Errno

  /** Only the DIRECTORY case of a file type is ever tested. */
  datatype FileType = Directory | NotDirectory

  /** The fields of `struct stat` that lstat fills in. */
  datatype StatBuf = StatBuf(dev: int, ino: int, mode: int, nlink: int, uid: int, gid: int, size: int)

  /** One host call, with the arguments that reach the host. Relative names are resolved by
      the host against the working directory. */
  datatype Call =
    | Chdir(path: string)
    | Lstat(name: string)
    | GetFileType(name: string)
    | Open(path: string, flags: int, mode: int)
    | OpenDir(path: string)
    | CloseDir
    | ReadLink(name: string)
    | Mkdir(name: string, mode: int)
    | Rmdir(name: string)
    | Mknod(name: string, mode: int, dev: int)
    | Access(name: string, mode: int)
    | Rename(source: string, dest: string)
    | Chmod(name: string, mode: int)
    | Chown(name: string, owner: int, group: int)
    | Link(existing: string, newName: string)
    | Unlink(name: string)
    | Symlink(target: string, name: string)
    | Time
    | Utime(name: string, actime: int, modtime: int)

  /** The host's answer to one call: a failure with its errno, or success together with
      whatever the call hands back (a return value, a filled stat buffer, a file type,
      the entries a directory stream yields, the bytes readlink stored). */
  datatype Reply =
    | Failed(errno: int)
    | Done(ret: int)
    | Filled(st: StatBuf)
    | Typed(kind: FileType)
    | Listed(entries: seq<string>)
    | Stored(text: string)

  /** A reply of the shape its call produces. `time()` never fails; a successful call other
      than `time()` returns a non-negative value. */
  predicate Fits(c: Call, r: Reply)
  {
    match r
    case Failed(_) => !c.Time?
    case Done(n) => (c.Time? || n >= 0) && !(c.Lstat? || c.GetFileType? || c.OpenDir? || c.ReadLink?)
    case Filled(_) => c.Lstat?
    case Typed(_) => c.GetFileType?
    case Listed(_) => c.OpenDir?
    case Stored(_) => c.ReadLink?
  }

  /** The status a call's reply yields when its failure raises the host errno. */
  function StatusOf(r: Reply): (s: Status)
    ensures s.Error? <==> r.Failed?
    ensures r.Failed? ==> s.code == r.errno
  {
    if r.Failed? then Error(r.errno) else Success
  }

  type Oracle = (seq<Call>, Call) -> Reply

  class Host {
    /** The process-wide working directory: the last path a chdir succeeded on. */
    var cwd: string
    /** Every host call issued so far, in order. */
    var trace: seq<Call>
    /** How the host answers a call, given the calls issued before it. */
    const oracle: Oracle

    ghost predicate Valid()
    {
      forall t, c :: Fits(c, oracle(t, c))
    }

    constructor (cwd: string, oracle: Oracle)
      requires forall t, c :: Fits(c, oracle(t, c))
      ensures this.cwd == cwd && this.trace == [] && this.oracle == oracle
      ensures Valid()
    {
      this.cwd := cwd;
      this.trace := [];
      this.oracle := oracle;
    }

    /** Issue one host call: it is appended to the trace, answered by the oracle, and a
        successful chdir moves the working directory. */
    method Issue(c: Call) returns (r: Reply)
      requires Valid()
      modifies this
      ensures r == oracle(old(trace), c) && Fits(c, r)
      ensures trace == old(trace) + [c]
      ensures cwd == if c.Chdir? && !r.Failed? then c.path else old(cwd)
    {
      r := oracle(trace, c);
      trace := trace + [c];
      if c.Chdir? && !r.Failed? {
        cwd := c.path;
      }
    }
  }
}
