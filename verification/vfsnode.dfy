/** One node of the emulated filesystem tree backed by the host filesystem. Every operation
    that resolves a name relative to the node first "scopes" it: chdir to the node's resolved
    path, so that the host resolves the name against it. Operations run one at a time (the
    global lock that makes them atomic is not modelled). */
module InterixVfs {
  import opened Errno
  import opened HostOs
  import opened Paths
  import opened Optional
  import TimeCalls

  /** Flags `OpenDirectory` opens the node's own path with. */
  const O_RDONLY: int := 0

  class Node {
    /** The node this one was reached from; null for a node built from an absolute path alone. */
    const parent: Node?
    /** The path segment this node was reached by. */
    const name: string
    /** The resolved host path, fixed when the node is built. */
    const path: string

    /** The resolved path of a node built from `parent` and `path`. */
    static function ResolvedPath(parent: Node?, path: string): string
      requires IsAbsolute(path) || parent != null
    {
      if IsAbsolute(path) then path else Resolve(parent.path, path)
    }

    /** Builds the node without probing the host; `Create` adds the probe. */
    constructor (parent: Node?, name: string, path: string)
      requires IsAbsolute(path) || parent != null
      ensures this.parent == parent && this.name == name
      ensures this.path == ResolvedPath(parent, path)
    {
      this.parent := parent;
      this.name := name;
      this.path := ResolvedPath(parent, path);
    }

    /** Builds a node and checks at once that its path can be entered: the chdir probe is
        left in effect, and its failure is raised. */
    static method Create(host: Host, parent: Node?, name: string, path: string) returns (r: Result<Node>)
      requires host.Valid()
      requires IsAbsolute(path) || parent != null
      modifies host
      ensures var p := ResolvedPath(parent, path);
              var probe := host.oracle(old(host.trace), Call.Chdir(p));
              && host.trace == old(host.trace) + [Call.Chdir(p)]
              && (r.Ok? <==> !probe.Failed?)
              && (r.Err? ==> r.code == probe.errno && host.cwd == old(host.cwd))
              && (r.Ok? ==> fresh(r.value) && host.cwd == p && r.value.path == p
                            && r.value.parent == parent && r.value.name == name)
    {
      var n := new Node(parent, name, path);
      var probe := host.Issue(Call.Chdir(n.path));
      if probe.Failed? {
        r := Err(probe.errno);
      } else {
        r := Ok(n);
      }
    }

    /** The host's answer to the chdir that scopes this node, issued after the calls `t`. */
    function ScopeReply(host: Host, t: seq<Call>): Reply
    {
      host.oracle(t, Call.Chdir(path))
    }

    /** From trace `t0` and working directory `c0`, the host went through this node's scoping
        chdir and, only if that succeeded, the one call `c`; `s` is the failure of whichever
        of the two failed. */
    ghost predicate ScopedCall(host: Host, t0: seq<Call>, c0: string, c: Call, s: Status)
      reads host
    {
      var sc := ScopeReply(host, t0);
      var t1 := t0 + [Call.Chdir(path)];
      if sc.Failed? then
        s == Error(sc.errno) && host.trace == t1 && host.cwd == c0
      else
        host.trace == t1 + [c] && host.cwd == path && s == StatusOf(host.oracle(t1, c))
    }

    /** Maps `.` and the empty name to this node, `..` to the parent, and any other name to a
        new child node (which probes its own path). */
    method Traverse(host: Host, name: string) returns (r: Result<Node?>)
      requires host.Valid()
      modifies host
      ensures name == "." || name == "" ==> r.Ok? && r.value == this && unchanged(host)
      ensures name == ".." ==> r.Ok? && r.value == parent && unchanged(host)
      ensures Ordinary(name) ==>
                var p := Resolve(path, name);
                var probe := host.oracle(old(host.trace), Call.Chdir(p));
                && host.trace == old(host.trace) + [Call.Chdir(p)]
                && (r.Ok? <==> !probe.Failed?)
                && (r.Err? ==> r.code == probe.errno && host.cwd == old(host.cwd))
                && (r.Ok? ==> r.value != null && fresh(r.value) && host.cwd == p
                              && r.value.parent == this && r.value.name == name && r.value.path == p)
    {
      if name == "." || name == "" {
        return Ok(this);
      } else if name == ".." {
        return Ok(parent);
      }
      var child := Create(host, this, name, name);
      match child
      case Ok(n) => r := Ok(n);
      case Err(e) => r := Err(e);
    }

    /** Scopes this node: chdir to its resolved path, raising the failure. */
    method Setup(host: Host) returns (s: Status)
      requires host.Valid()
      modifies host
      ensures host.trace == old(host.trace) + [Call.Chdir(path)]
      ensures s == StatusOf(ScopeReply(host, old(host.trace)))
      ensures host.cwd == if s.Success? then path else old(host.cwd)
    {
      var r := host.Issue(Call.Chdir(path));
      s := StatusOf(r);
    }

    /** Scopes this node for an operation on `name`: the empty name raises ENOENT and a dot
        name raises the caller's `dotErr`, both before anything reaches the host. */
    method SetupName(host: Host, name: string, dotErr: int) returns (s: Status)
      requires host.Valid()
      modifies host
      ensures name == "" ==> s == Error(ENOENT)
      ensures IsDotName(name) ==> s == Error(dotErr)
      ensures !Ordinary(name) ==> unchanged(host)
      ensures Ordinary(name) ==>
                && host.trace == old(host.trace) + [Call.Chdir(path)]
                && s == StatusOf(ScopeReply(host, old(host.trace)))
                && host.cwd == if s.Success? then path else old(host.cwd)
    {
      if name == "" {
        return Error(ENOENT);
      }
      if name == "." || name == ".." {
        return Error(dotErr);
      }
      s := Setup(host);
    }

    /** lstat of `name` from this node; `..` is answered by the parent's stat of `.`. */
    method StatFile(host: Host, name: string) returns (r: Result<StatBuf>)
      requires host.Valid()
      requires name == ".." ==> parent != null
      modifies host
      ensures var dir := if name == ".." then parent.path else path;
              var target := if name == ".." then "." else name;
              var sc := host.oracle(old(host.trace), Call.Chdir(dir));
              var t1 := old(host.trace) + [Call.Chdir(dir)];
              if sc.Failed? then
                r == Err(sc.errno) && host.trace == t1 && host.cwd == old(host.cwd)
              else
                var st := host.oracle(t1, Call.Lstat(target));
                && host.trace == t1 + [Call.Lstat(target)] && host.cwd == dir
                && r == if st.Failed? then Err(st.errno) else Ok(st.st)
      decreases if name == ".." then 1 else 0
    {
      if name == ".." {
        r := parent.StatFile(host, ".");
        return;
      }
      var s := Setup(host);
      if s.Error? {
        return Err(s.code);
      }
      var st := host.Issue(Call.Lstat(name));
      if st.Failed? {
        r := Err(st.errno);
      } else {
        r := Ok(st.st);
      }
    }

    /** Opens the node's own path as a read-only descriptor; no scoping is needed. */
    method OpenDirectory(host: Host) returns (r: Result<int>)
      requires host.Valid()
      modifies host
      ensures var o := host.oracle(old(host.trace), Call.Open(path, O_RDONLY, 0));
              && host.trace == old(host.trace) + [Call.Open(path, O_RDONLY, 0)]
              && host.cwd == old(host.cwd)
              && r == if o.Failed? then Err(o.errno) else Ok(o.ret)
      ensures r.Ok? ==> r.value >= 0
    {
      var o := host.Issue(Call.Open(path, O_RDONLY, 0));
      if o.Failed? {
        r := Err(o.errno);
      } else {
        r := Ok(o.ret);
      }
    }

    /** Opens the file `name` under this node. Dot names and names the host reports as
        directories raise EISDIR without any open reaching the host. */
    method OpenFile(host: Host, name: string, flags: int, mode: int) returns (r: Result<int>)
      requires host.Valid()
      modifies host
      ensures !Ordinary(name) ==> r == Err(NameError(name, EISDIR, ENOENT)) && unchanged(host)
      ensures Ordinary(name) ==>
                var sc := ScopeReply(host, old(host.trace));
                var t1 := old(host.trace) + [Call.Chdir(path)];
                if sc.Failed? then
                  r == Err(sc.errno) && host.trace == t1 && host.cwd == old(host.cwd)
                else
                  var ty := host.oracle(t1, Call.GetFileType(name));
                  var t2 := t1 + [Call.GetFileType(name)];
                  && host.cwd == path
                  && if ty.Failed? then r == Err(ty.errno) && host.trace == t2
                     else if ty.kind == Directory then r == Err(EISDIR) && host.trace == t2
                     else
                       var o := host.oracle(t2, Call.Open(name, flags, mode));
                       && host.trace == t2 + [Call.Open(name, flags, mode)]
                       && r == if o.Failed? then Err(o.errno) else Ok(o.ret)
      ensures r.Ok? ==> r.value >= 0
    {
      var s := SetupName(host, name, EISDIR);
      if s.Error? {
        return Err(s.code);
      }
      var ty := host.Issue(Call.GetFileType(name));
      if ty.Failed? {
        return Err(ty.errno);
      }
      if ty.kind == Directory {
        return Err(EISDIR);
      }
      var o := host.Issue(Call.Open(name, flags, mode));
      if o.Failed? {
        r := Err(o.errno);
      } else {
        r := Ok(o.ret);
      }
    }

    /** The names in this node's directory, exactly as the host's directory stream yields
        them (including `.` and `..`), in the host's order. */
    method Enumerate(host: Host) returns (r: Result<seq<string>>)
      requires host.Valid()
      modifies host
      ensures var sc := ScopeReply(host, old(host.trace));
              var t1 := old(host.trace) + [Call.Chdir(path)];
              if sc.Failed? then
                r == Err(sc.errno) && host.trace == t1 && host.cwd == old(host.cwd)
              else
                var d := host.oracle(t1, Call.OpenDir("."));
                var t2 := t1 + [Call.OpenDir(".")];
                && host.cwd == path
                && if d.Failed? then r == Err(d.errno) && host.trace == t2
                   else r == Ok(d.entries) && host.trace == t2 + [Call.CloseDir]
    {
      var s := Setup(host);
      if s.Error? {
        return Err(s.code);
      }
      var dir := host.Issue(Call.OpenDir("."));
      if dir.Failed? {
        return Err(dir.errno);
      }
      var stream := dir.entries;
      var names: seq<string> := [];
      var i := 0;
      while i < |stream|
        invariant 0 <= i <= |stream|
        invariant names == stream[..i]
      {
        names := names + [stream[i]];
        i := i + 1;
      }
      assert stream[..i] == stream;
      var _ := host.Issue(Call.CloseDir);
      r := Ok(names);
    }

    /** The target of the symbolic link `name`: the bytes readlink reports. */
    method ReadLink(host: Host, name: string, dotErr: int) returns (r: Result<string>)
      requires host.Valid()
      modifies host
      ensures !Ordinary(name) ==> r == Err(NameError(name, dotErr, ENOENT)) && unchanged(host)
      ensures Ordinary(name) ==>
                var sc := ScopeReply(host, old(host.trace));
                var t1 := old(host.trace) + [Call.Chdir(path)];
                if sc.Failed? then
                  r == Err(sc.errno) && host.trace == t1 && host.cwd == old(host.cwd)
                else
                  var l := host.oracle(t1, Call.ReadLink(name));
                  && host.trace == t1 + [Call.ReadLink(name)] && host.cwd == path
                  && r == if l.Failed? then Err(l.errno) else Ok(l.text)
    {
      var s := SetupName(host, name, dotErr);
      if s.Error? {
        return Err(s.code);
      }
      var l := host.Issue(Call.ReadLink(name));
      if l.Failed? {
        r := Err(l.errno);
      } else {
        r := Ok(l.text);
      }
    }

    /** Creates the directory `name`; `.` already exists and succeeds without any host call. */
    method MkDir(host: Host, name: string, mode: int, dotErr: int) returns (s: Status)
      requires host.Valid()
      modifies host
      ensures name == "." ==> s == Success && unchanged(host)
      ensures name == ".." ==> s == Error(dotErr) && unchanged(host)
      ensures name == "" ==> s == Error(ENOENT) && unchanged(host)
      ensures Ordinary(name) ==> ScopedCall(host, old(host.trace), old(host.cwd), Call.Mkdir(name, mode), s)
    {
      if name == "." {
        return Success;
      }
      s := SetupName(host, name, dotErr);
      if s.Error? {
        return;
      }
      var r := host.Issue(Call.Mkdir(name, mode));
      s := StatusOf(r);
    }

    /** Removes the directory `name`. */
    method RmDir(host: Host, name: string, dotErr: int) returns (s: Status)
      requires host.Valid()
      modifies host
      ensures !Ordinary(name) ==> s == Error(NameError(name, dotErr, ENOENT)) && unchanged(host)
      ensures Ordinary(name) ==> ScopedCall(host, old(host.trace), old(host.cwd), Call.Rmdir(name), s)
    {
      s := SetupName(host, name, dotErr);
      if s.Error? {
        return;
      }
      var r := host.Issue(Call.Rmdir(name));
      s := StatusOf(r);
    }

    /** Creates the special file `name`. */
    method Mknod(host: Host, name: string, mode: int, dev: int, dotErr: int) returns (s: Status)
      requires host.Valid()
      modifies host
      ensures !Ordinary(name) ==> s == Error(NameError(name, dotErr, ENOENT)) && unchanged(host)
      ensures Ordinary(name) ==> ScopedCall(host, old(host.trace), old(host.cwd), Call.Mknod(name, mode, dev), s)
    {
      s := SetupName(host, name, dotErr);
      if s.Error? {
        return;
      }
      var r := host.Issue(Call.Mknod(name, mode, dev));
      s := StatusOf(r);
    }

    /** Checks access to `name`; the empty name checks the node itself. */
    method Access(host: Host, name: string, mode: int) returns (r: Result<int>)
      requires host.Valid()
      modifies host
      ensures var sc := ScopeReply(host, old(host.trace));
              var t1 := old(host.trace) + [Call.Chdir(path)];
              if sc.Failed? then
                r == Err(sc.errno) && host.trace == t1 && host.cwd == old(host.cwd)
              else
                var a := host.oracle(t1, Call.Access(AccessName(name), mode));
                && host.trace == t1 + [Call.Access(AccessName(name), mode)] && host.cwd == path
                && r == if a.Failed? then Err(a.errno) else Ok(a.ret)
    {
      var s := Setup(host);
      if s.Error? {
        return Err(s.code);
      }
      var a := host.Issue(Call.Access(AccessName(name), mode));
      if a.Failed? {
        r := Err(a.errno);
      } else {
        r := Ok(a.ret);
      }
    }

    /** Renames `from` under this node to `to` under `other`. Names that are empty or dots on
        either side raise EINVAL before anything reaches the host; otherwise only `other`'s
        path is read, and the host is asked to rename the relative `from` to the absolute
        destination. */
    method Rename(host: Host, from: string, other: Node, to: string) returns (s: Status)
      requires host.Valid()
      modifies host
      ensures !(Ordinary(from) && Ordinary(to)) ==> s == Error(EINVAL) && unchanged(host)
      ensures Ordinary(from) && Ordinary(to) ==>
                ScopedCall(host, old(host.trace), old(host.cwd), Call.Rename(from, Join(other.path, to)), s)
    {
      if from == "." || from == ".." || from == "" || to == "." || to == ".." || to == "" {
        return Error(EINVAL);
      }
      var toAbs := Join(other.path, to);
      s := Setup(host);
      if s.Error? {
        return;
      }
      var r := host.Issue(Call.Rename(from, toAbs));
      s := StatusOf(r);
    }

    /** Changes the mode of `name`; the name itself is not checked. */
    method Chmod(host: Host, name: string, mode: int) returns (s: Status)
      requires host.Valid()
      modifies host
      ensures ScopedCall(host, old(host.trace), old(host.cwd), Call.Chmod(name, mode), s)
    {
      s := Setup(host);
      if s.Error? {
        return;
      }
      var r := host.Issue(Call.Chmod(name, mode));
      s := StatusOf(r);
    }

    /** Changes the owner of `name`. Under the fake-superuser option the node is still scoped
        but no chown reaches the host and the call succeeds. */
    method Chown(host: Host, name: string, owner: int, group: int, fakeRoot: bool) returns (s: Status)
      requires host.Valid()
      modifies host
      ensures fakeRoot ==>
                var sc := ScopeReply(host, old(host.trace));
                && host.trace == old(host.trace) + [Call.Chdir(path)]
                && s == StatusOf(sc)
                && host.cwd == if sc.Failed? then old(host.cwd) else path
      ensures !fakeRoot ==> ScopedCall(host, old(host.trace), old(host.cwd), Call.Chown(name, owner, group), s)
    {
      s := Setup(host);
      if s.Error? || fakeRoot {
        return;
      }
      var r := host.Issue(Call.Chown(name, owner, group));
      s := StatusOf(r);
    }

    /** Creates `name` under this node as a hard link to `target` under `targetNode`. Names
        that are empty or dots on either side raise EINVAL before anything reaches the host;
        the host is asked to link the absolute target to the relative `name`. */
    method Link(host: Host, name: string, targetNode: Node, target: string) returns (s: Status)
      requires host.Valid()
      modifies host
      ensures !(Ordinary(name) && Ordinary(target)) ==> s == Error(EINVAL) && unchanged(host)
      ensures Ordinary(name) && Ordinary(target) ==>
                ScopedCall(host, old(host.trace), old(host.cwd), Call.Link(Join(targetNode.path, target), name), s)
    {
      if target == "." || target == ".." || target == "" || name == "." || name == ".." || name == "" {
        return Error(EINVAL);
      }
      var toAbs := Join(targetNode.path, target);
      s := Setup(host);
      if s.Error? {
        return;
      }
      var r := host.Issue(Call.Link(toAbs, name));
      s := StatusOf(r);
    }

    /** Removes `name`. A host refusal because the file is a running executable (ETXTBSY) is
        reported as success; every other host failure is raised. */
    method Unlink(host: Host, name: string, dotErr: int) returns (s: Status)
      requires host.Valid()
      modifies host
      ensures !Ordinary(name) ==> s == Error(NameError(name, dotErr, ENOENT)) && unchanged(host)
      ensures Ordinary(name) ==>
                var sc := ScopeReply(host, old(host.trace));
                var t1 := old(host.trace) + [Call.Chdir(path)];
                if sc.Failed? then
                  s == Error(sc.errno) && host.trace == t1 && host.cwd == old(host.cwd)
                else
                  var u := host.oracle(t1, Call.Unlink(name));
                  && host.trace == t1 + [Call.Unlink(name)] && host.cwd == path
                  && s == if u.Failed? && u.errno != ETXTBSY then Error(u.errno) else Success
    {
      s := SetupName(host, name, dotErr);
      if s.Error? {
        return;
      }
      var u := host.Issue(Call.Unlink(name));
      if u.Failed? && u.errno != ETXTBSY {
        s := Error(u.errno);
      } else {
        s := Success;
      }
    }

    /** Creates `name` as a symbolic link whose contents are `target`. */
    method Symlink(host: Host, name: string, target: string, dotErr: int) returns (s: Status)
      requires host.Valid()
      modifies host
      ensures !Ordinary(name) ==> s == Error(NameError(name, dotErr, ENOENT)) && unchanged(host)
      ensures Ordinary(name) ==> ScopedCall(host, old(host.trace), old(host.cwd), Call.Symlink(target, name), s)
    {
      s := SetupName(host, name, dotErr);
      if s.Error? {
        return;
      }
      var r := host.Issue(Call.Symlink(target, name));
      s := StatusOf(r);
    }

    /** Sets the access and modification times of `name` with utime, which keeps whole seconds
        only. Without times, both become the host's current time. */
    method Utimes(host: Host, name: string, times: Option<(TimeCalls.TimeVal, TimeCalls.TimeVal)>) returns (s: Status)
      requires host.Valid()
      modifies host
      ensures var sc := ScopeReply(host, old(host.trace));
              var t1 := old(host.trace) + [Call.Chdir(path)];
              if sc.Failed? then
                s == Error(sc.errno) && host.trace == t1 && host.cwd == old(host.cwd)
              else if times.None? then
                var now := host.oracle(t1, Call.Time).ret;
                var t2 := t1 + [Call.Time];
                && host.trace == t2 + [Call.Utime(name, now, now)] && host.cwd == path
                && s == StatusOf(host.oracle(t2, Call.Utime(name, now, now)))
              else
                ScopedCall(host, old(host.trace), old(host.cwd),
                           Call.Utime(name, times.value.0.sec, times.value.1.sec), s)
    {
      s := Setup(host);
      if s.Error? {
        return;
      }
      var actime, modtime;
      if times.None? {
        var now := host.Issue(Call.Time);
        actime := now.ret;
        modtime := actime;
      } else {
        actime := times.value.0.sec;
        modtime := times.value.1.sec;
      }
      var r := host.Issue(Call.Utime(name, actime, modtime));
      s := StatusOf(r);
    }
  }

  /** The C string a character buffer holds: its characters before the first NUL. */
  function CString(buf: string): (s: string)
    ensures |s| <= |buf| && s == buf[..|s|]
    ensures '\0' !in s
    ensures |s| < |buf| ==> buf[|s|] == '\0'
    decreases buf
  {
    if buf == [] || buf[0] == '\0' then [] else [buf[0]] + CString(buf[1..])
  }

  /** A NUL-free prefix is kept whole in front of the C string that follows it. */
  lemma {:induction false} CStringAfterPrefix(p: string, rest: string)
    requires '\0' !in p
    ensures CString(p + rest) == p + CString(rest)
    decreases p
  {
    if p != [] {
      assert p[0] in p;
      assert (p + rest)[0] == p[0] && (p + rest)[1..] == p[1..] + rest;
      CStringAfterPrefix(p[1..], rest);
      calc {
        CString(p + rest);
        [p[0]] + CString(p[1..] + rest);
        [p[0]] + (p[1..] + CString(rest));
        { assert [p[0]] + p[1..] == p; }
        p + CString(rest);
      }
    } else {
      assert p + rest == rest;
    }
  }

  /** What ReadLink returns as written: readlink stores the link target `written` at the
      front of the buffer without a terminating NUL, the rest of the buffer still holds its
      earlier contents `stale`, and the buffer is returned as a C string. The result is the
      target only when a NUL happens to follow it. When the target fills the whole buffer the
      C string runs past the array; the model stops at the buffer's end and promises nothing
      about that case. */
  function ReadLinkAsWritten(written: string, stale: string): (s: string)
    requires |written| <= |stale|
    ensures '\0' !in written ==> |s| >= |written| && s[..|written|] == written
    ensures '\0' !in written && |written| < |stale| ==>
              (s == written <==> stale[|written|] == '\0')
  {
    var buf := written + stale[|written|..];
    if '\0' in written then CString(buf)
    else CStringAfterPrefix(written, stale[|written|..]); CString(buf)
  }

  /** A link to "abc" read into a buffer whose fourth byte was left as 'x' comes back as
      "abcx". */
  lemma ReadLinkAsWrittenRunsOn()
    ensures ReadLinkAsWritten("abc", "\0\0\0x\0") == "abcx"
  {
    CStringAfterPrefix("abc", "x\0");
    assert "abc" + "\0\0\0x\0"[3..] == "abc" + "x\0";
    assert CString("x\0") == "x";
  }
}
