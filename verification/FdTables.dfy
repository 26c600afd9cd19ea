/** The tracer's view of the target's descriptors: the path each one was opened with, and the ones that
    belong to the tracer itself, against the kernel's own descriptor table. */
module FdTables {
  import opened Common
  import opened Text

  const SYS_READ := 0
  const SYS_WRITE := 1
  const SYS_OPEN := 2
  const SYS_CLOSE := 3
  const SYS_FSTAT := 5
  const SYS_LSEEK := 8
  const SYS_MMAP := 9
  const SYS_IOCTL := 16
  const SYS_PREAD64 := 17
  const SYS_PWRITE64 := 18
  const SYS_DUP := 32
  const SYS_DUP2 := 33
  const SYS_OPENAT := 257
  const SYS_DUP3 := 292

  const TWO31: int := 0x8000_0000
  const TWO32: int := 0x1_0000_0000

  /** `r` has the low 32 bits of `v`, read as a signed number. */
  predicate IsLow32(v: int, r: int) { -TWO31 <= r < TWO31 && (v - r) % TWO32 == 0 }

  /** The source's `as i32`. */
  function AsI32(v: int): (r: int)
    ensures IsLow32(v, r)
    ensures 0 <= v < TWO31 ==> r == v
  {
    var low := v % TWO32;
    if low < TWO31 then low else low - TWO32
  }

  /** What the tracer remembers of one system call from its entry: the number, the six argument registers
      and the path read from the target's memory, if the call takes one. */
  datatype Syscall = Syscall(nr: int, arg0: int, arg1: int, arg2: int, arg3: int, arg4: int, arg5: int, path: Option<string>)

  datatype FdMaps = FdMaps(paths: map<int, string>, hidden: set<int>)

  /** Errors -4095..-1 are folded into -1. */
  function NormalizeRet(raw: int): int { if -4095 <= raw <= -1 then -1 else raw }

  const DELETED: string := " (deleted)"

  predicate EndsDeleted(s: string) { |s| >= |DELETED| && s[|s| - |DELETED|..] == DELETED }

  function TrimDeleted(s: string): string
    decreases |s|
  {
    if EndsDeleted(s) then TrimDeleted(s[..|s| - |DELETED|]) else s
  }

  /** `base` is the configured output path and `name` its last component, if it has one. */
  predicate IsOutputPath(base: string, name: Option<string>, path: string) {
    var trimmed := TrimDeleted(path);
    Contains(trimmed, base + ".tid-") || (name.Some? && Contains(trimmed, name.value + ".tid-"))
  }

  datatype OutputConfig = OutputConfig(base: string, name: Option<string>)

  predicate IsOutputOpen(cfg: OutputConfig, c: Syscall) {
    c.path.Some? && IsOutputPath(cfg.base, cfg.name, c.path.value)
  }

  /** The path as the kernel shows it for a file deleted `n` times over. */
  function Marked(path: string, n: nat): string { if n == 0 then path else Marked(path, n - 1) + DELETED }

  lemma {:induction false} TrimMarked(path: string, n: nat)
    ensures TrimDeleted(Marked(path, n)) == TrimDeleted(path)
  {
    if n > 0 {
      var s := Marked(path, n);
      assert EndsDeleted(s) && s[..|s| - |DELETED|] == Marked(path, n - 1);
      TrimMarked(path, n - 1);
    }
  }

  /** Every path is one without the mark, marked some number of times. */
  lemma {:induction false} EveryPathIsMarked(path: string) returns (n: nat)
    ensures path == Marked(TrimDeleted(path), n) && !EndsDeleted(TrimDeleted(path))
    decreases |path|
  {
    n := 0;
    if EndsDeleted(path) {
      var front := path[..|path| - |DELETED|];
      n := EveryPathIsMarked(front);
      n := n + 1;
      assert path == front + DELETED;
    }
  }

  /** The mark contains no hyphen, so it cannot reach back over one. */
  lemma {:induction false} TrimBehind(front: string, rest: string)
    requires front != "" && front[|front| - 1] == '-'
    ensures TrimDeleted(front + rest) == front + TrimDeleted(rest)
    decreases |rest|
  {
    var s := front + rest;
    assert EndsDeleted(s) <==> EndsDeleted(rest) by {
      if |rest| >= |DELETED| {
        assert s[|s| - |DELETED|..] == rest[|rest| - |DELETED|..];
      } else if |s| >= |DELETED| {
        var tail := s[|s| - |DELETED|..];
        assert tail[|DELETED| - |rest| - 1] == front[|front| - 1];
        assert forall i :: 0 <= i < |DELETED| ==> DELETED[i] != '-';
      }
    }
    if EndsDeleted(rest) {
      assert s[..|s| - |DELETED|] == front + rest[..|rest| - |DELETED|];
      TrimBehind(front, rest[..|rest| - |DELETED|]);
    }
  }

  lemma {:induction false} MarkedBehind(front: string, rest: string, n: nat)
    ensures Marked(front + rest, n) == front + Marked(rest, n)
  {
    if n > 0 {
      MarkedBehind(front, rest, n - 1);
      assert front + (Marked(rest, n - 1) + DELETED) == front + Marked(rest, n - 1) + DELETED;
    }
  }

  /** Which paths are output paths: those that, without the marks of deletion, have the configured path or its last
      component in them, followed by ".tid-". */
  lemma OutputPathIff(base: string, name: Option<string>, path: string, n: nat)
    requires !EndsDeleted(path)
    ensures IsOutputPath(base, name, Marked(path, n)) <==>
      (exists i :: OccursAt(path, base + ".tid-", i)) || (name.Some? && exists i :: OccursAt(path, name.value + ".tid-", i))
  {
    hide Contains;
    TrimMarked(path, n);
    ContainsIff(path, base + ".tid-");
    if name.Some? {
      ContainsIff(path, name.value + ".tid-");
    }
  }

  lemma ThreadFileInside(a: string, stem: string, b: string, n: nat)
    ensures Contains(TrimDeleted(Marked(a + stem + ".tid-" + b, n)), stem + ".tid-")
  {
    hide Contains, TrimDeleted, Marked;
    var part := stem + ".tid-";
    var front := a + part;
    assert a + stem + ".tid-" + b == front + b;
    assert front[|front| - 1] == ".tid-"[4];
    MarkedBehind(front, b, n);
    TrimBehind(front, Marked(b, n));
    ContainsItself(part);
    ContainsInside(a, part, TrimDeleted(Marked(b, n)), part);
  }

  lemma ContainsItself(s: string)
    ensures Contains(s, s)
  {}

  /** The tracer's own per-thread files are output paths, wherever they are and also after they were deleted. */
  lemma ThreadFilesAreOutput(base: string, name: Option<string>, a: string, b: string, n: nat)
    ensures IsOutputPath(base, name, Marked(a + base + ".tid-" + b, n))
    ensures name.Some? ==> IsOutputPath(base, name, Marked(a + name.value + ".tid-" + b, n))
  {
    hide Contains, TrimDeleted, Marked;
    ThreadFileInside(a, base, b, n);
    if name.Some? {
      ThreadFileInside(a, name.value, b, n);
    }
  }

  /** A path without ".tid-" in it is none. */
  lemma OtherFilesAreNot(base: string, name: Option<string>, path: string)
    requires forall i :: !OccursAt(path, ".tid-", i)
    ensures !IsOutputPath(base, name, path)
  {
    hide Contains, TrimDeleted, Marked;
    var n := EveryPathIsMarked(path);
    var bare := TrimDeleted(path);
    OutputPathIff(base, name, bare, n);
    MarkedExtends(bare, n);
    forall stem: string, i
      ensures !OccursAt(bare, stem + ".tid-", i)
    {
      if OccursAt(bare, stem + ".tid-", i) {
        InnerOccurs(path, bare, stem, ".tid-", i);
      }
    }
    assert name.Some? ==> forall i :: !OccursAt(bare, name.value + ".tid-", i);
  }

  lemma {:induction false} MarkedExtends(path: string, n: nat)
    ensures path <= Marked(path, n)
  {
    if n > 0 {
      MarkedExtends(path, n - 1);
    }
  }

  lemma InnerOccurs(path: string, bare: string, stem: string, part: string, i: nat)
    requires bare <= path && OccursAt(bare, stem + part, i)
    ensures OccursAt(path, part, i + |stem|)
  {
    var whole := stem + part;
    assert bare[i..i + |whole|][|stem|..] == part;
    assert path[i + |stem|..i + |stem| + |part|] == bare[i..i + |whole|][|stem|..];
  }

  function Duplicate(paths: map<int, string>, from: int, to: int): map<int, string> {
    if from in paths then paths[to := paths[from]] else paths - {to}
  }

  function UpdatePaths(paths: map<int, string>, c: Syscall, ret: int): map<int, string> {
    if c.nr == SYS_OPEN || c.nr == SYS_OPENAT then
      if ret >= 0 && c.path.Some? then paths[AsI32(ret) := c.path.value] else paths
    else if c.nr == SYS_CLOSE then
      if ret == 0 then paths - {AsI32(c.arg0)} else paths
    else if c.nr == SYS_DUP || c.nr == SYS_DUP2 || c.nr == SYS_DUP3 then
      if ret >= 0 then Duplicate(paths, AsI32(c.arg0), AsI32(ret)) else paths
    else paths
  }

  function UpdateHidden(cfg: OutputConfig, hidden: set<int>, c: Syscall, ret: int): set<int> {
    if c.nr == SYS_OPEN || c.nr == SYS_OPENAT then
      if ret >= 0 && IsOutputOpen(cfg, c) then hidden + {AsI32(ret)} else hidden
    else if c.nr == SYS_CLOSE then
      if ret == 0 then hidden - {AsI32(c.arg0)} else hidden
    else if c.nr == SYS_DUP then
      if ret >= 0 && AsI32(c.arg0) in hidden then hidden + {AsI32(ret)} else hidden
    else if c.nr == SYS_DUP2 || c.nr == SYS_DUP3 then
      if ret < 0 then hidden
      else if AsI32(c.arg0) in hidden then hidden + {AsI32(ret)} else hidden - {AsI32(ret)}
    else hidden
  }

  function Update(cfg: OutputConfig, maps: FdMaps, c: Syscall, raw: int): FdMaps {
    FdMaps(UpdatePaths(maps.paths, c, NormalizeRet(raw)), UpdateHidden(cfg, maps.hidden, c, NormalizeRet(raw)))
  }

  /** The descriptor a covered call works on. */
  function SubjectFd(c: Syscall): Option<int> {
    if c.nr in {SYS_READ, SYS_WRITE, SYS_CLOSE, SYS_IOCTL, SYS_FSTAT, SYS_LSEEK, SYS_PREAD64, SYS_PWRITE64, SYS_DUP, SYS_DUP2, SYS_DUP3}
    then Some(AsI32(c.arg0))
    else if c.nr == SYS_MMAP then Some(AsI32(c.arg4))
    else None
  }

  predicate Suppressed(cfg: OutputConfig, maps: FdMaps, c: Syscall, raw: int) {
    || (SubjectFd(c).Some? && SubjectFd(c).value in maps.hidden)
    || ((c.nr == SYS_OPEN || c.nr == SYS_OPENAT) && NormalizeRet(raw) >= 0 && IsOutputOpen(cfg, c))
  }

  /** The maps as the event loop keeps them. */
  class FdTracker {
    var fdPaths: map<int, string>
    var hiddenFds: set<int>
    const cfg: OutputConfig

    function Maps(): FdMaps reads this { FdMaps(fdPaths, hiddenFds) }

    constructor (cfg: OutputConfig, bootstrapFds: seq<int>, links: seq<(int, string)>)
      ensures this.cfg == cfg
      ensures Maps() == Seed(cfg, FdMaps(map[], set f | f in bootstrapFds && f >= 0), links)
    {
      this.cfg := cfg;
      fdPaths := map[];
      hiddenFds := set f | f in bootstrapFds && f >= 0;
      new;
      var i := 0;
      while i < |links|
        invariant 0 <= i <= |links|
        invariant this.cfg == cfg
        invariant Maps() == Seed(cfg, FdMaps(map[], set f | f in bootstrapFds && f >= 0), links[..i])
      {
        var (fd, path) := links[i];
        fdPaths := fdPaths[fd := path];
        if IsOutputPath(cfg.base, cfg.name, path) {
          hiddenFds := hiddenFds + {fd};
        }
        assert links[..i + 1][..i] == links[..i];
        i := i + 1;
      }
      assert links[..i] == links;
    }

    method DuplicateFd(from: int, to: int)
      modifies this`fdPaths
      ensures fdPaths == Duplicate(old(fdPaths), from, to)
    {
      if from in fdPaths {
        var path := fdPaths[from];
        fdPaths := fdPaths[to := path];
      } else {
        fdPaths := fdPaths - {to};
      }
    }

    method UpdateFdPaths(c: Syscall, ret: int)
      modifies this`fdPaths
      ensures fdPaths == UpdatePaths(old(fdPaths), c, ret)
    {
      if c.nr == SYS_OPEN || c.nr == SYS_OPENAT {
        if ret >= 0 {
          var fd := AsI32(ret);
          if c.path.Some? {
            fdPaths := fdPaths[fd := c.path.value];
          }
        }
      } else if c.nr == SYS_CLOSE {
        if ret == 0 {
          fdPaths := fdPaths - {AsI32(c.arg0)};
        }
      } else if c.nr == SYS_DUP {
        if ret >= 0 {
          DuplicateFd(AsI32(c.arg0), AsI32(ret));
        }
      } else if c.nr == SYS_DUP2 || c.nr == SYS_DUP3 {
        if ret >= 0 {
          DuplicateFd(AsI32(c.arg0), AsI32(ret));
        }
      }
    }

    method UpdateHiddenFds(c: Syscall, ret: int)
      modifies this`hiddenFds
      ensures hiddenFds == UpdateHidden(cfg, old(hiddenFds), c, ret)
    {
      if c.nr == SYS_OPEN || c.nr == SYS_OPENAT {
        if ret >= 0 && IsOutputOpen(cfg, c) {
          hiddenFds := hiddenFds + {AsI32(ret)};
        }
      } else if c.nr == SYS_CLOSE {
        if ret == 0 {
          hiddenFds := hiddenFds - {AsI32(c.arg0)};
        }
      } else if c.nr == SYS_DUP {
        if ret >= 0 && AsI32(c.arg0) in hiddenFds {
          hiddenFds := hiddenFds + {AsI32(ret)};
        }
      } else if c.nr == SYS_DUP2 || c.nr == SYS_DUP3 {
        if ret >= 0 {
          var oldfd, newfd := AsI32(c.arg0), AsI32(ret);
          if oldfd in hiddenFds {
            hiddenFds := hiddenFds + {newfd};
          } else {
            hiddenFds := hiddenFds - {newfd};
          }
        }
      }
    }
  }

  /** The descriptors listed under /proc when tracing starts. */
  function Seed(cfg: OutputConfig, maps: FdMaps, links: seq<(int, string)>): FdMaps
    decreases |links|
  {
    if links == [] then maps
    else
      var before := Seed(cfg, maps, links[..|links| - 1]);
      var (fd, path) := links[|links| - 1];
      FdMaps(before.paths[fd := path], if IsOutputPath(cfg.base, cfg.name, path) then before.hidden + {fd} else before.hidden)
  }

  /** The kernel's side: an open file has the path it was opened with and is, or is not, an end of one of
      the tracer's pipes. */
  datatype OpenFile = OpenFile(path: string, tracerPipe: bool)
  type Kernel = map<int, OpenFile>

  /** One finished call. `released` and `created` are what it does to the table besides what the tracer follows:
      a close that fails releases its descriptor all the same when the final flush reports an error, and calls
      other than open, close and the dup family may release and create any (socket, pipe, fcntl, close_range). */
  datatype Call = Call(sys: Syscall, raw: int, released: set<int>, created: Kernel)

  predicate IsOpen(c: Call) { c.sys.nr == SYS_OPEN || c.sys.nr == SYS_OPENAT }
  predicate IsDup(c: Call) { c.sys.nr == SYS_DUP || c.sys.nr == SYS_DUP2 || c.sys.nr == SYS_DUP3 }
  predicate IsClose(c: Call) { c.sys.nr == SYS_CLOSE }

  /** What the kernel can return in table `k`: the descriptor argument is its low 32 bits, errors of these calls are at
      least -4095, descriptors are below 2^31, open and dup return an unused one, dup2 and dup3 return the one asked for, and new descriptors
      are unused before. */
  ghost predicate Possible(k: Kernel, c: Call) {
    && (IsOpen(c) || IsClose(c) || IsDup(c) ==> c.raw >= -4095)
    && (IsOpen(c) ==> c.sys.path.Some? && (c.raw >= 0 ==> c.raw < TWO31 && c.raw !in k))
    && (IsClose(c) ==> c.raw <= 0 && (c.raw == 0 ==> AsI32(c.sys.arg0) in k) && c.released <= if c.raw == 0 then {} else {AsI32(c.sys.arg0)})
    && (IsDup(c) && c.raw >= 0 ==> c.raw < TWO31 && AsI32(c.sys.arg0) in k)
    && (c.sys.nr == SYS_DUP && c.raw >= 0 ==> c.raw !in k)
    && ((c.sys.nr == SYS_DUP2 || c.sys.nr == SYS_DUP3) && c.raw >= 0 ==> c.raw == AsI32(c.sys.arg1))
    && (IsOpen(c) || IsDup(c) ==> c.released == {})
    && (IsOpen(c) || IsDup(c) || IsClose(c) ==> c.created == map[])
    && c.released <= k.Keys && c.created.Keys !! k.Keys
  }

  function KernelStep(k: Kernel, c: Call): Kernel {
    if IsOpen(c) then
      if c.raw >= 0 && c.sys.path.Some? then k[c.raw := OpenFile(c.sys.path.value, false)] else k
    else if IsClose(c) && c.raw == 0 then k - {AsI32(c.sys.arg0)}
    else if IsDup(c) then
      if c.raw >= 0 && AsI32(c.sys.arg0) in k then k[c.raw := k[AsI32(c.sys.arg0)]] else k
    else (k - c.released) + c.created
  }

  /** The target should not see lines about these files. */
  predicate Secret(cfg: OutputConfig, f: OpenFile) { f.tracerPipe || IsOutputPath(cfg.base, cfg.name, f.path) }

  function PathsOf(k: Kernel): map<int, string> { map fd | fd in k :: k[fd].path }
  function SecretsOf(cfg: OutputConfig, k: Kernel): set<int> { set fd | fd in k && Secret(cfg, k[fd]) }

  /** The call changes the table behind the tracer's back; it releases or creates one of the tracer's own files
      behind its back. */
  ghost predicate Unfollowed(c: Call) { (exists fd :: fd in c.released) || exists fd :: fd in c.created }
  ghost predicate SecretUnfollowed(cfg: OutputConfig, k: Kernel, c: Call) {
    (exists fd :: fd in c.released && fd in k && Secret(cfg, k[fd])) || exists fd :: fd in c.created && Secret(cfg, c.created[fd])
  }

  lemma UnfollowedStep(k: Kernel, c: Call)
    requires !IsOpen(c) && !IsDup(c) && !(IsClose(c) && c.raw == 0) && Possible(k, c)
    ensures KernelStep(k, c) == (k - c.released) + c.created
    ensures c.raw < 0 || !IsClose(c)
  {}

  /** One call keeps the path map equal to the kernel table if and only if it changes nothing behind the tracer's
      back. */
  lemma PathsStep(k: Kernel, c: Call)
    requires Possible(k, c)
    ensures UpdatePaths(PathsOf(k), c.sys, NormalizeRet(c.raw)) == PathsOf(KernelStep(k, c)) <==> !Unfollowed(c)
  {
    var got, want := UpdatePaths(PathsOf(k), c.sys, NormalizeRet(c.raw)), PathsOf(KernelStep(k, c));
    if fd :| fd in c.released {
      assert fd in got && fd !in want;
    } else if fd :| fd in c.created {
      assert fd !in got && fd in want;
    } else {
      assert forall fd: int :: fd in got <==> fd in want;
      assert forall fd: int :: fd in got ==> got[fd] == want[fd];
    }
  }

  /** One call keeps the hidden set equal to the tracer's own live descriptors if and only if it releases and
      creates none of those behind the tracer's back. */
  lemma HiddenStep(cfg: OutputConfig, k: Kernel, c: Call)
    requires Possible(k, c)
    ensures UpdateHidden(cfg, SecretsOf(cfg, k), c.sys, NormalizeRet(c.raw)) == SecretsOf(cfg, KernelStep(k, c))
      <==> !SecretUnfollowed(cfg, k, c)
  {
    hide Secret, IsOutputPath;
    if IsOpen(c) || IsDup(c) || (IsClose(c) && c.raw == 0) {
      FollowedStep(cfg, k, c);
    } else {
      UnfollowedSecrets(cfg, k, c);
    }
  }

  lemma FollowedStep(cfg: OutputConfig, k: Kernel, c: Call)
    requires Possible(k, c) && (IsOpen(c) || IsDup(c) || (IsClose(c) && c.raw == 0))
    ensures UpdateHidden(cfg, SecretsOf(cfg, k), c.sys, NormalizeRet(c.raw)) == SecretsOf(cfg, KernelStep(k, c))
    ensures !SecretUnfollowed(cfg, k, c)
  {
    hide IsOutputPath;
    var got, want := UpdateHidden(cfg, SecretsOf(cfg, k), c.sys, NormalizeRet(c.raw)), SecretsOf(cfg, KernelStep(k, c));
    assert forall fd :: fd in got <==> fd in want;
  }

  lemma UnfollowedSecrets(cfg: OutputConfig, k: Kernel, c: Call)
    requires Possible(k, c) && !IsOpen(c) && !IsDup(c) && !(IsClose(c) && c.raw == 0)
    ensures UpdateHidden(cfg, SecretsOf(cfg, k), c.sys, NormalizeRet(c.raw)) == SecretsOf(cfg, k)
    ensures SecretsOf(cfg, KernelStep(k, c)) == SecretsOf(cfg, k) <==> !SecretUnfollowed(cfg, k, c)
  {
    hide Secret;
    UnfollowedStep(k, c);
    var now := SecretsOf(cfg, KernelStep(k, c));
    assert forall fd :: fd in now <==> fd in SecretsOf(cfg, c.created) || (fd in SecretsOf(cfg, k) && fd !in c.released);
    if fd :| fd in c.released && fd in k && Secret(cfg, k[fd]) {
      assert fd in SecretsOf(cfg, k) && fd !in now;
    } else if fd :| fd in c.created && Secret(cfg, c.created[fd]) {
      assert fd in now && fd !in SecretsOf(cfg, k);
    } else {
      assert forall fd :: fd in now <==> fd in SecretsOf(cfg, k);
    }
  }

  function KernelRun(k: Kernel, calls: seq<Call>): Kernel
    decreases |calls|
  {
    if calls == [] then k else KernelStep(KernelRun(k, calls[..|calls| - 1]), calls[|calls| - 1])
  }

  function MapsRun(cfg: OutputConfig, m: FdMaps, calls: seq<Call>): FdMaps
    decreases |calls|
  {
    if calls == [] then m
    else Update(cfg, MapsRun(cfg, m, calls[..|calls| - 1]), calls[|calls| - 1].sys, calls[|calls| - 1].raw)
  }

  ghost predicate PossibleRun(k: Kernel, calls: seq<Call>)
    decreases |calls|
  {
    calls == [] || (PossibleRun(k, calls[..|calls| - 1]) && Possible(KernelRun(k, calls[..|calls| - 1]), calls[|calls| - 1]))
  }

  ghost predicate Agree(cfg: OutputConfig, m: FdMaps, k: Kernel) { m == FdMaps(PathsOf(k), SecretsOf(cfg, k)) }
  ghost predicate Hides(cfg: OutputConfig, m: FdMaps, k: Kernel) { m.hidden == SecretsOf(cfg, k) }

  /** Over every run in which nothing happens behind the tracer's back, both maps equal the kernel table. */
  lemma {:induction false} RunAgrees(cfg: OutputConfig, m: FdMaps, k: Kernel, calls: seq<Call>)
    requires Agree(cfg, m, k) && PossibleRun(k, calls)
    requires forall i :: 0 <= i < |calls| ==> !Unfollowed(calls[i])
    ensures Agree(cfg, MapsRun(cfg, m, calls), KernelRun(k, calls))
    decreases |calls|
  {
    hide KernelStep, UpdatePaths, UpdateHidden, Possible, SecretsOf;
    if calls != [] {
      var prefix, last := calls[..|calls| - 1], calls[|calls| - 1];
      RunAgrees(cfg, m, k, prefix);
      PathsStep(KernelRun(k, prefix), last);
      HiddenStep(cfg, KernelRun(k, prefix), last);
      NothingSecret(cfg, KernelRun(k, prefix), last);
    }
  }

  lemma NothingSecret(cfg: OutputConfig, k: Kernel, c: Call)
    requires !Unfollowed(c)
    ensures !SecretUnfollowed(cfg, k, c)
  {}

  /** The hidden set is right after the first `n` calls; none of them touches a secret behind the tracer's back. */
  ghost predicate HidesAt(cfg: OutputConfig, m: FdMaps, k: Kernel, calls: seq<Call>, n: nat)
    requires n <= |calls|
  {
    Hides(cfg, MapsRun(cfg, m, calls[..n]), KernelRun(k, calls[..n]))
  }

  ghost predicate SecretTouchedAt(cfg: OutputConfig, k: Kernel, calls: seq<Call>, n: nat)
    requires n < |calls|
  {
    SecretUnfollowed(cfg, KernelRun(k, calls[..n]), calls[n])
  }

  /** Main result, hiding: over every run, whatever descriptors other calls create and release, the hidden set is
      the tracer's own live descriptors after every call if and only if no call creates or releases one of those
      behind the tracer's back. */
  lemma {:induction false} RunHidesIff(cfg: OutputConfig, m: FdMaps, k: Kernel, calls: seq<Call>)
    requires Hides(cfg, m, k) && PossibleRun(k, calls)
    ensures (forall n :: 0 <= n <= |calls| ==> HidesAt(cfg, m, k, calls, n)) <==> (forall n :: 0 <= n < |calls| ==> !SecretTouchedAt(cfg, k, calls, n))
    decreases |calls|
  {
    hide KernelStep, Update, Possible, SecretUnfollowed, Hides, HidesAt, SecretTouchedAt;
    if calls == [] {
      EmptyRunHides(cfg, m, k);
    } else {
      var last := |calls| - 1;
      var prefix := calls[..last];
      RunHidesIff(cfg, m, k, prefix);
      forall n | 0 <= n <= last
        ensures HidesAt(cfg, m, k, calls, n) <==> HidesAt(cfg, m, k, prefix, n)
        ensures n < last ==> (SecretTouchedAt(cfg, k, calls, n) <==> SecretTouchedAt(cfg, k, prefix, n))
      {
        PrefixHides(cfg, m, k, calls, last, n);
      }
      if HidesAt(cfg, m, k, calls, last) {
        LastHides(cfg, m, k, calls);
      }
    }
  }

  lemma EmptyRunHides(cfg: OutputConfig, m: FdMaps, k: Kernel)
    requires Hides(cfg, m, k)
    ensures HidesAt(cfg, m, k, [], 0)
  {}

  lemma PrefixHides(cfg: OutputConfig, m: FdMaps, k: Kernel, calls: seq<Call>, last: nat, n: nat)
    requires n <= last < |calls|
    ensures HidesAt(cfg, m, k, calls, n) <==> HidesAt(cfg, m, k, calls[..last], n)
    ensures n < last ==> (SecretTouchedAt(cfg, k, calls, n) <==> SecretTouchedAt(cfg, k, calls[..last], n))
  {
    hide Hides, SecretUnfollowed, MapsRun, KernelRun;
    assert calls[..last][..n] == calls[..n];
  }

  lemma LastHides(cfg: OutputConfig, m: FdMaps, k: Kernel, calls: seq<Call>)
    requires calls != [] && PossibleRun(k, calls) && HidesAt(cfg, m, k, calls, |calls| - 1)
    ensures HidesAt(cfg, m, k, calls, |calls|) <==> !SecretTouchedAt(cfg, k, calls, |calls| - 1)
  {
    hide KernelStep, Update, Possible, SecretUnfollowed, Hides;
    var prefix := calls[..|calls| - 1];
    assert calls[..|calls|] == calls;
    StepHidesIff(cfg, MapsRun(cfg, m, prefix), KernelRun(k, prefix), calls[|calls| - 1]);
  }

  lemma StepHidesIff(cfg: OutputConfig, m: FdMaps, k: Kernel, c: Call)
    requires Hides(cfg, m, k) && Possible(k, c)
    ensures Hides(cfg, Update(cfg, m, c.sys, c.raw), KernelStep(k, c)) <==> !SecretUnfollowed(cfg, k, c)
  {
    hide UpdateHidden, UpdatePaths, SecretsOf, KernelStep;
    HiddenStep(cfg, k, c);
  }

  /** A seed that reads every link yields maps that agree. The tracer's pipes are the ends the target keeps, which
      are the bootstrap descriptors; another end that is still open when the seed is read counts as a file of the
      target until the target closes it. */
  lemma {:induction false} SeedAgrees(cfg: OutputConfig, bootstrap: set<int>, links: seq<(int, string)>, k: Kernel)
    requires forall fd :: fd in k <==> exists i :: 0 <= i < |links| && links[i].0 == fd
    requires forall i :: 0 <= i < |links| ==> links[i].0 in k && links[i].1 == k[links[i].0].path
    requires forall fd :: fd in bootstrap <==> fd in k && k[fd].tracerPipe
    ensures Agree(cfg, Seed(cfg, FdMaps(map[], bootstrap), links), k)
  {
    SeedContents(cfg, bootstrap, links);
    var m := Seed(cfg, FdMaps(map[], bootstrap), links);
    forall fd
      ensures fd in m.paths <==> fd in k
      ensures fd in k ==> m.paths[fd] == k[fd].path
    {
      if fd in k {
        var i :| 0 <= i < |links| && links[i].0 == fd;
        assert links[i].0 in m.paths;
      }
      if fd in m.paths {
        var i :| 0 <= i < |links| && links[i].0 == fd;
        assert links[i].0 in k;
      }
    }
    assert forall fd :: fd in m.hidden <==> fd in SecretsOf(cfg, k);
  }

  lemma {:induction false} SeedContents(cfg: OutputConfig, bootstrap: set<int>, links: seq<(int, string)>)
    requires forall i, j :: 0 <= i < |links| && 0 <= j < |links| && links[i].0 == links[j].0 ==> links[i].1 == links[j].1
    ensures var m := Seed(cfg, FdMaps(map[], bootstrap), links);
      && (forall fd :: fd in m.paths <==> exists i :: 0 <= i < |links| && links[i].0 == fd)
      && (forall i :: 0 <= i < |links| ==> links[i].0 in m.paths && m.paths[links[i].0] == links[i].1)
      && (forall fd :: fd in m.hidden <==> fd in bootstrap || exists i :: 0 <= i < |links| && links[i].0 == fd && IsOutputPath(cfg.base, cfg.name, links[i].1))
    decreases |links|
  {
    if links != [] {
      var init := links[..|links| - 1];
      SeedContents(cfg, bootstrap, init);
      assert forall i :: 0 <= i < |init| ==> init[i] == links[i];
      assert links[|links| - 1] == (links[|links| - 1].0, links[|links| - 1].1);
    }
  }

  /** Descriptors the map does not know stay unknown rather than wrong: whatever it does say about a descriptor is
      the path of the file behind it. */
  ghost predicate Partial(paths: map<int, string>, k: Kernel) {
    forall fd :: fd in paths ==> fd in k && paths[fd] == k[fd].path
  }

  ghost predicate KnownReleased(paths: map<int, string>, c: Call) { exists fd :: fd in c.released && fd in paths }

  /** One call keeps the map from lying if and only if it releases no known descriptor behind the tracer's back. */
  lemma PartialStep(paths: map<int, string>, k: Kernel, c: Call)
    requires Partial(paths, k) && Possible(k, c)
    ensures Partial(UpdatePaths(paths, c.sys, NormalizeRet(c.raw)), KernelStep(k, c)) <==> !KnownReleased(paths, c)
  {
    if fd :| fd in c.released && fd in paths {
      assert fd in UpdatePaths(paths, c.sys, NormalizeRet(c.raw)) && fd !in KernelStep(k, c);
    }
  }

  lemma {:induction false} PartialSeedNeverLies(cfg: OutputConfig, m: FdMaps, k: Kernel, calls: seq<Call>)
    requires Partial(m.paths, k) && PossibleRun(k, calls)
    requires forall n {:trigger calls[n]} :: 0 <= n < |calls| ==> !KnownReleased(MapsRun(cfg, m, calls[..n]).paths, calls[n])
    ensures Partial(MapsRun(cfg, m, calls).paths, KernelRun(k, calls))
    decreases |calls|
  {
    hide KernelStep, UpdatePaths, UpdateHidden, Possible, Partial, KnownReleased;
    if calls != [] {
      var prefix := calls[..|calls| - 1];
      forall n {:trigger prefix[n]} | 0 <= n < |prefix|
        ensures !KnownReleased(MapsRun(cfg, m, prefix[..n]).paths, prefix[n])
      {
        assert prefix[..n] == calls[..n] && prefix[n] == calls[n];
      }
      PartialSeedNeverLies(cfg, m, k, prefix);
      PartialStep(MapsRun(cfg, m, prefix).paths, KernelRun(k, prefix), calls[|calls| - 1]);
    }
  }

  /** The call works on the descriptor: reading, writing, closing, ioctl, stat, seeking and duplicating on the one in
      the first argument, mapping on the one in the fifth. */
  ghost predicate WorksOn(c: Syscall, fd: int) {
    || (c.nr in {SYS_READ, SYS_WRITE, SYS_CLOSE, SYS_FSTAT, SYS_LSEEK, SYS_IOCTL, SYS_PREAD64, SYS_PWRITE64, SYS_DUP, SYS_DUP2, SYS_DUP3}
        && IsLow32(c.arg0, fd))
    || (c.nr == SYS_MMAP && IsLow32(c.arg4, fd))
  }

  lemma LowIsUnique(v: int, a: int, b: int)
    requires IsLow32(v, a) && IsLow32(v, b)
    ensures a == b
  {}

  lemma SubjectIff(c: Syscall, fd: int)
    ensures SubjectFd(c) == Some(fd) <==> WorksOn(c, fd)
  {
    hide IsLow32;
    if c.nr == SYS_MMAP {
      if IsLow32(c.arg4, fd) { LowIsUnique(c.arg4, AsI32(c.arg4), fd); }
    } else if IsLow32(c.arg0, fd) {
      LowIsUnique(c.arg0, AsI32(c.arg0), fd);
    }
  }

  /** The call works on a file of the tracer, or opens one. */
  ghost predicate OnOwnFile(cfg: OutputConfig, k: Kernel, c: Call) {
    || (exists fd :: fd in k && Secret(cfg, k[fd]) && WorksOn(c.sys, fd))
    || (IsOpen(c) && c.raw >= 0 && c.sys.path.Some? && IsOutputPath(cfg.base, cfg.name, c.sys.path.value))
  }

  /** While the hidden set is right, the lines dropped are exactly those about calls that work on a file of the tracer
      or open one. */
  lemma SuppressesExactly(cfg: OutputConfig, m: FdMaps, k: Kernel, c: Call)
    requires Hides(cfg, m, k) && Possible(k, c)
    ensures Suppressed(cfg, m, c.sys, c.raw) <==> OnOwnFile(cfg, k, c)
  {
    hide IsOutputPath, WorksOn;
    forall fd
      ensures SubjectFd(c.sys) == Some(fd) <==> WorksOn(c.sys, fd)
    {
      SubjectIff(c.sys, fd);
    }
    if SubjectFd(c.sys).Some? {
      assert WorksOn(c.sys, SubjectFd(c.sys).value);
    }
  }

  /** A hidden descriptor whose failing close released it hides the user's next file on that number. */
  lemma ReleasedFdHidesUserFile(cfg: OutputConfig, k: Kernel, fd: int, path: string)
    requires 0 <= fd < TWO31 && fd in k && Secret(cfg, k[fd]) && !IsOutputPath(cfg.base, cfg.name, path)
    ensures var close := Call(Syscall(SYS_CLOSE, fd, 0, 0, 0, 0, 0, None), -5, {fd}, map[]);
      var open := Call(Syscall(SYS_OPEN, 0, 0, 0, 0, 0, 0, Some(path)), fd, {}, map[]);
      var m := FdMaps(PathsOf(k), SecretsOf(cfg, k));
      && PossibleRun(k, [close, open])
      && !Secret(cfg, KernelRun(k, [close, open])[fd])
      && fd in MapsRun(cfg, m, [close, open]).hidden
  {
    var close := Call(Syscall(SYS_CLOSE, fd, 0, 0, 0, 0, 0, None), -5, {fd}, map[]);
    var open := Call(Syscall(SYS_OPEN, 0, 0, 0, 0, 0, 0, Some(path)), fd, {}, map[]);
    var m := FdMaps(PathsOf(k), SecretsOf(cfg, k));
    assert [close, open][..1] == [close] && [close][..0] == [];
    assert Possible(k, close) && PossibleRun(k, []);
    assert PossibleRun(k, [close]);
    assert KernelRun(k, [close]) == KernelStep(k, close);
    assert MapsRun(cfg, m, [close]) == Update(cfg, m, close.sys, close.raw);
    assert MapsRun(cfg, m, [close, open]) == Update(cfg, MapsRun(cfg, m, [close]), open.sys, open.raw);
  }
}
