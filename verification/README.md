# LBW host-filesystem node and time syscalls, modelled in Dafny

LBW runs unmodified Linux executables on Interix by turning each Linux system call into
host calls. This project models two parts of it:

- **`InterixVFSNode`**, one node of the emulated filesystem tree. The host resolves
  relative names against one process-wide working directory. So every operation first
  *scopes* its node: it calls `chdir` on the node's resolved path, then makes the host
  call on the relative name. The model covers the node's path composition, its name
  checks, its error policy, and the exact host calls each operation makes.
- **The time syscalls** `time`, `clock_gettime`, `clock_getres` and `nanosleep`: their
  clock-id dispatch and their integer unit conversions, including the unsigned 64-bit
  arithmetic in `nanosleep`.

Layout:

- `errno.dfy` (module `Errno`): the `Status` and `Result` outcomes, and the errno numbers
  the layer raises itself; (module `Optional`): the `Option` type for pointers a caller may
  leave null.
- `host.dfy` (module `HostOs`): the host. A `Host` object holds the working directory
  `cwd` and the `trace` of every host call issued. An `oracle` answers each call, given
  the calls before it. A successful `Chdir` is the only thing that moves `cwd`. Because
  of the trace, "nothing reached the host" can be stated as `host.trace == old(host.trace)`.
- `paths.dfy` (module `Paths`): name classification, path joining and resolution.
- `vfsnode.dfy` (module `InterixVfs`): the `Node` class, with one method per member of
  `InterixVFSNode`. Each method's postcondition gives its result, the calls appended to
  the trace, and the working directory afterwards. The module also holds the `readlink`
  finding.
- `timecalls.dfy` (module `TimeCalls`): the time handlers, written as pure functions.
  The host's clock readings and select's outcome are inputs. Whatever a handler stores
  through a caller's pointer is returned as a value.

## Model

| member | source | states |
|---|---|---|
| `InterixVfs.Node.constructor` | src/filesystem/InterixVFSNode.cc:16-37 | An absolute path is kept as the resolved path. Any other path is joined onto the parent's resolved path with `/`. Parent and name are recorded. |
| `InterixVfs.Node.Create` | src/filesystem/InterixVFSNode.cc:28-43 | Building a node issues exactly one `chdir`, to its resolved path. Success leaves `cwd` at that path and returns a fresh node. Failure raises the chdir errno and leaves `cwd` unchanged. |
| `Paths.Resolve` | src/filesystem/InterixVFSNode.cc:30-36 | An absolute path is kept. Otherwise the result is the parent path, then `/`, then the path. The result is absolute exactly when the path is absolute, the parent path is absolute, or the parent path is empty. |
| `Paths.SplitJoin` | src/filesystem/InterixVFSNode.cc:36 | A path built by joining a name without `/` onto a directory splits back at its last `/` into exactly that directory and that name. |
| `Paths.LastSlash` | src/filesystem/InterixVFSNode.cc:36 | The position found holds a `/` and no `/` follows it (or there is none at all). |
| `Paths.DescendExtends` | src/filesystem/InterixVFSNode.cc:22-36 | Traversing any non-empty sequence of ordinary relative names (none of them `.`, `..` or empty) from a node yields a path that textually extends the node's path followed by `/`. A `..` inside a longer name is not normalised. |
| `InterixVfs.Node.Traverse` | src/filesystem/InterixVFSNode.cc:65-73 | `.` and the empty name return the node itself, and `..` returns its parent; in both cases the host is untouched. Any other name yields a fresh child whose parent is this node and whose path is `Resolve(path, name)`. That child's chdir probe is the only host call. |
| `InterixVfs.Node.Setup` | src/filesystem/InterixVFSNode.cc:75-79 | Issues one `chdir` to the node's path. Afterwards `cwd` is that path, or the chdir errno is raised and `cwd` is unchanged. |
| `InterixVfs.Node.SetupName` | src/filesystem/InterixVFSNode.cc:81-88 | The empty name raises ENOENT, and `.` or `..` raise the caller's code. In both cases no host call is issued and `cwd` is unchanged. Any other name scopes the node. |
| `InterixVfs.Node.StatFile` | src/filesystem/InterixVFSNode.cc:49-57 | `..` scopes the parent and runs lstat on `.`, which is exactly the parent's stat of `.`. Any other name scopes this node and runs lstat on that name. The filled buffer is returned, or the errno is raised. |
| `InterixVfs.Node.OpenDirectory` | src/filesystem/InterixVFSNode.cc:90-95 | Opens the node's absolute path read-only with no chdir, so `cwd` is unchanged. The descriptor is non-negative. |
| `InterixVfs.Node.OpenFile` | src/filesystem/InterixVFSNode.cc:97-114 | The empty name raises ENOENT, and `.` or `..` raise EISDIR, before any host call. A name the host reports as a directory raises EISDIR, and no `open` is issued. Otherwise `open(name, flags, mode)` is issued after the scope. Its descriptor is returned, or its errno is raised. |
| `InterixVfs.Node.Enumerate` | src/filesystem/InterixVFSNode.cc:116-133 | After scoping, the result is every name the host's directory stream yields, in the host's order. The stream is then closed. |
| `InterixVfs.Node.ReadLink` | src/filesystem/InterixVFSNode.cc:135-146 | Name checks as in `SetupName`. Returns exactly the bytes `readlink` reports (corrected; see Findings). |
| `InterixVfs.CString` | src/filesystem/InterixVFSNode.cc:145 | Converting a buffer to a string keeps exactly the characters before the first NUL. |
| `InterixVfs.CStringAfterPrefix` | src/filesystem/InterixVFSNode.cc:145 | A prefix with no NUL in it survives whole at the front of the converted string. |
| `InterixVfs.ReadLinkAsWritten` | src/filesystem/InterixVFSNode.cc:140-145 | As written, the result starts with the link target. When the target is shorter than the buffer, the result equals the target exactly when a NUL happens to follow it. |
| `InterixVfs.ReadLinkAsWrittenRunsOn` | src/filesystem/InterixVFSNode.cc:140-145 | A link to `abc` read into a buffer holding `x` after the target comes back as `abcx`. |
| `InterixVfs.Node.MkDir` | src/filesystem/InterixVFSNode.cc:148-163 | `.` succeeds with no host call and no change to `cwd`. `..` raises the caller's code and the empty name raises ENOENT, both untouched. Any other name scopes the node, then issues `mkdir`. |
| `InterixVfs.Node.RmDir` | src/filesystem/InterixVFSNode.cc:165-173 | Name checks as in `SetupName`, then scope, then `rmdir(name)`. A failure raises its errno. |
| `InterixVfs.Node.Mknod` | src/filesystem/InterixVFSNode.cc:175-182 | Name checks as in `SetupName`, then scope, then `mknod(name, mode, dev)`. |
| `InterixVfs.Node.Access` | src/filesystem/InterixVFSNode.cc:184-193 | Scopes with no name check. Checks `.` when the name is empty and the name itself otherwise. Returns access's value, or raises its errno. |
| `Paths.AccessName` | src/filesystem/InterixVFSNode.cc:189 | The name passed to access is `.` for the empty name and the name itself otherwise, so it is never empty. |
| `InterixVfs.Node.Rename` | src/filesystem/InterixVFSNode.cc:195-212 | If either name is `.`, `..` or empty, EINVAL is raised with no host call. Otherwise the node is scoped and `rename(from, other.path + "/" + to)` is issued. The other node is never scoped. |
| `InterixVfs.Node.Chmod` | src/filesystem/InterixVFSNode.cc:214-222 | Scopes with no name check, then `chmod(name, mode)`. |
| `InterixVfs.Node.Chown` | src/filesystem/InterixVFSNode.cc:224-235 | Under the fake-root option, the scoping chdir is the only host call, and the call succeeds whenever that chdir does. Without the option, `chown` follows the scope. |
| `InterixVfs.Node.Link` | src/filesystem/InterixVFSNode.cc:237-253 | If either name is `.`, `..` or empty, EINVAL is raised with no host call. Otherwise the node is scoped and `link(target.path + "/" + target, name)` is issued: the absolute path first. |
| `InterixVfs.Node.Unlink` | src/filesystem/InterixVFSNode.cc:255-269 | Name checks as in `SetupName`, then scope, then `unlink(name)`. ETXTBSY from the host is reported as success. Every other failure raises its errno. |
| `InterixVfs.Node.Symlink` | src/filesystem/InterixVFSNode.cc:271-278 | Name checks as in `SetupName`, then scope, then `symlink(target, name)`. |
| `InterixVfs.Node.Utimes` | src/filesystem/InterixVFSNode.cc:281-303 | With no times, the host's `time()` value becomes both the access and the modification time. Otherwise only the two `tv_sec` fields reach `utime`. |
| `TimeCalls.SysTime` | src/syscalls/time.cc:25-33 | Returns the host time. Stores it only when a pointer was passed, and the stored value is the time modulo 2^32. |
| `TimeCalls.ClockGettime` | src/syscalls/time.cc:36-61 | Succeeds exactly for clock ids 0 and 1 when gettimeofday works. Anything else raises EINVAL. On success the seconds are kept and the nanoseconds are microseconds × 1000: a multiple of 1000, and below 10^9 when the microseconds are below 10^6. |
| `TimeCalls.ClockGetres` | src/syscalls/time.cc:63-83 | Clock ids 0 and 1 report 0 seconds and `10^9 / CLOCKS_PER_SEC` nanoseconds, the largest tick count that fits `CLOCKS_PER_SEC` times into a second. Any other id raises EINVAL. |
| `TimeCalls.TickBounds` | src/syscalls/time.cc:74 | `10^9 / n` ticks fit n times into a second, and one more nanosecond per tick does not. |
| `TimeCalls.SleepTimeout` | src/syscalls/time.cc:106-108 | The select timeout keeps the seconds. Its microseconds are the nanoseconds divided by 1000, truncated toward zero, and stay below 10^6 for a valid request. |
| `TimeCalls.MicrosU64` | src/syscalls/time.cc:113 | The 64-bit microsecond count lies in [0, 2^64) and is congruent to the true count modulo 2^64. |
| `TimeCalls.ElapsedMicros` | src/syscalls/time.cc:113-117 | The unsigned difference lies in [0, 2^64) and is congruent to the true elapsed microseconds. It equals them exactly when both counts fit and the clock did not step back. |
| `TimeCalls.SplitMicros` | src/syscalls/time.cc:119-120 | `sec * 10^6 + nsec / 1000` gives back the microsecond count. The nanoseconds are a multiple of 1000 and below 10^9. |
| `TimeCalls.Nanosleep` | src/syscalls/time.cc:98-126 | select receives `SleepTimeout(req)`. `rem` is written exactly when the caller passed it, even when the wait failed, and holds the elapsed time. The wait's failure is then raised. |
| `TimeCalls.RemainingAfter` | src/syscalls/time.cc:111-121 | Corrected `rem`: the time left of the request. Elapsed plus remaining equals the request, or the remaining time is zero once the request has run out. |
| `TimeCalls.NanosleepStoresElapsed` | src/syscalls/time.cc:111-124 | A 10 s sleep interrupted after 2 s raises EINTR and stores 2 s in `rem`, where 8 s remain. |

## Findings

| source | as written | input that shows it | evidently intended | confidence | as-written member | corrected member |
|---|---|---|---|---|---|---|
| src/filesystem/InterixVFSNode.cc:140-145 | `readlink` stores no terminating NUL, yet the uninitialised buffer is returned as a C string. Any leftover bytes after the target up to the first NUL are returned too. | target `abc`, with the buffer holding `x` then NUL after it: returns `abcx` | return exactly the `i` bytes `readlink` reported | high, not executed | `InterixVfs.ReadLinkAsWritten` | `InterixVfs.Node.ReadLink` |
| src/syscalls/time.cc:111-121 | `rem` receives the time elapsed since the sleep began | 10 s request interrupted by a signal after 2 s: `rem` holds 2 s | `rem` receives the time left of the request: 8 s | medium, not executed | `TimeCalls.Nanosleep` | `TimeCalls.RemainingAfter` |

## Left out

- The global lock (`RAIILock`) is not modelled. Each operation is one atomic sequential method on the shared `Host`. Interleavings are therefore not modelled.
- Host calls are oracle answers. The real filesystem contents, directory order and path normalisation are not visible. `cwd` is the string that the last successful chdir received.
- `CheckError` lives in `globals.h`, which is not part of this model. It is taken to raise the host errno when a call fails, just as `throw errno` does. The mapping from host errnos to Linux errnos is not modelled. The errno constants use Linux numbering.
- `VFSNode::GetFileType` is not part of this model. It is one host query that answers with a file type or an errno.
- The default error code of one-argument `setup(name)` is declared in `InterixVFSNode.h`, which is not part of this model. It is the parameter `dotErr` of every operation that uses `setup(name)`.
- `Options.FakeRoot` is the parameter `fakeRoot` of `Chown`.
- `InterixVfs.Node.StatFile` requires a parent for `..`, because the source dereferences `GetParent()`. What `VFSNode` gives as the root's parent is not part of this model.
- `dynamic_cast` followed by `assert` becomes a non-null `Node` parameter. The assert in `Link` tests the wrong pointer, and that is not modelled as behaviour.
- `InterixVfs.Node.Enumerate`: the source does not check `opendir` and would call `readdir` on a null stream. The model raises the opendir errno instead. Each `readdir` step reads the next entry of the stream that opendir returned.
- `StatFS`, `RealFD`, and reference counting and destruction of nodes are left out. An opened file is its descriptor number.
- `InterixVfs.ReadLinkAsWritten`: when the target fills the whole buffer, the C string runs past the end of the array. What follows in memory is not modelled, and the model promises nothing for that case.
- `InterixVfs.Node.ReadLink`: truncation at `PATH_MAX` is not modelled, because `PATH_MAX` is a host constant.
- `InterixVfs.Node.Utimes`: `time()` is taken never to fail.
- `TimeCalls.SysTime`: the width of the syscall's return value is not modelled, so the result is the host time unbounded.
- `TimeCalls.Nanosleep`: the width of `time_t` on the host is not shown, so `rem.tv_sec` is unbounded. On a 32-bit `time_t` a huge unsigned delta (a clock stepping back) would be truncated.
- `compat_sys_gettimeofday`, `compat_sys_setitimer`, `sys_alarm` and `compat_sys_times` are left out. They only pass their arguments through to the host.
- Real blocking in `nanosleep` is left out. The clock readings before and after the wait are inputs, and so is select's outcome for each timeout.
