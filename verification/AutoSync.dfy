/** The append-write pre-upload of linux_fuse_file.go and linux_fuse_file_sync.go: a file that is written front to
    back is uploaded part by part while it still grows. */
module AutoSync {
  import opened Wrappers

  type Byte = nat

  const MIB := 1024 * 1024
  const GIB := 1024 * MIB

  /** The size of an upload part for a file of `total` bytes. */
  function PartSize(total: nat): (size: nat)
    ensures size > 0
  {
    if total >= 64 * GIB then 256 * MIB else if total >= 16 * GIB then 128 * MIB else 64 * MIB
  }

  /** Where the part size steps up. */
  lemma PartSizeSteps(total: nat)
    ensures PartSize(total) == 64 * MIB <==> total < 16 * GIB
    ensures PartSize(total) == 128 * MIB <==> 16 * GIB <= total < 64 * GIB
    ensures PartSize(total) == 256 * MIB <==> total >= 64 * GIB
  {
  }

  // ---------------------------------------------------------------- the handle, one locked call at a time

  datatype Handle = Handle(
    autoSync: bool,
    publishes: bool,          // writable, and not in a local-only overlay
    file: seq<Byte>,
    dirty: bool,
    sequentialDirty: bool,
    sequentialEnd: nat,
    autoSyncedSize: nat,
    autoSyncDisabled: bool,
    autoSyncQueued: bool,
    released: bool)

  /** The file after `data` has been written at `off`; a gap reads as zeros. */
  function WriteAt(file: seq<Byte>, data: seq<Byte>, off: nat): seq<Byte> {
    var padded := if off <= |file| then file else file + seq(off - |file|, _ => 0);
    padded[..off] + data + (if off + |data| <= |padded| then padded[off + |data|..] else [])
  }

  function Truncate(file: seq<Byte>, size: nat): seq<Byte> {
    if size <= |file| then file[..size] else file + seq(size - |file|, _ => 0)
  }

  /** A write that wrote nothing leaves the handle alone. */
  function Noted(h: Handle, off: nat, written: int): Handle {
    if written <= 0 then h
    else if !h.sequentialDirty then h.(sequentialDirty := true, sequentialEnd := off + written)
    else if off == h.sequentialEnd then h.(sequentialEnd := off + written)
    else h.(autoSyncDisabled := true, autoSyncQueued := false, sequentialEnd := Max(h.sequentialEnd, off + written))
  }

  /** The prefix worth uploading now, or 0: whole parts only, no further than the writes have come, more than has
      been uploaded, and no whole part left out. */
  function ReadySize(h: Handle): (r: nat)
    ensures var part := PartSize(Max(|h.file|, h.sequentialEnd));
            r > 0 ==> r % part == 0 && h.autoSyncedSize < r <= h.sequentialEnd < r + part
                      && h.autoSync && !h.autoSyncDisabled && h.sequentialDirty
  {
    if !h.autoSync || h.autoSyncDisabled || !h.sequentialDirty then 0
    else
      var part := PartSize(Max(|h.file|, h.sequentialEnd));
      WholeParts(h.sequentialEnd, part);
      var ready := h.sequentialEnd / part * part;
      if ready <= h.autoSyncedSize then 0 else ready
  }

  lemma WholeParts(n: nat, part: nat)
    requires part > 0
    ensures n / part * part <= n < n / part * part + part && (n / part * part) % part == 0
  {
    assert n == n / part * part + n % part;
    MultipleMod(n / part, part);
  }

  lemma MultipleMod(q: nat, part: nat)
    requires part > 0
    ensures q * part % part == 0
  {
    var x := q * part;
    var k, r := x / part, x % part;
    assert x == k * part + r;
    assert (q - k) * part == r;
    if q - k >= 1 {
      TimesAtLeast(q - k, part);
    } else if q - k <= -1 {
      TimesAtLeast(k - q, part);
    }
  }

  lemma TimesAtLeast(m: nat, part: nat)
    requires m >= 1
    ensures m * part >= part
  {
  }

  /** A write, and the size of the run it starts, or 0. */
  function Written(h: Handle, data: seq<Byte>, off: nat): (Handle, nat) {
    if h.released || data == [] then (h, 0)
    else
      var noted := Noted(h.(file := WriteAt(h.file, data, off), dirty := true), off, |data|);
      var ready := ReadySize(noted);
      if ready == 0 || noted.autoSyncQueued then (noted, 0) else (noted.(autoSyncQueued := true), ready)
  }

  /** Where an attribute change fails: at the truncation, or at the mode or times that come after it. */
  datatype AttrFault = NoFault | TruncateFails | LaterFails

  /** A change that fails part way returns before the flags are set. */
  function AttrSet(h: Handle, size: Option<nat>, fault: AttrFault): Handle {
    if size.Some? && fault.TruncateFails? then h
    else
      var changed := h.(file := if size.Some? then Truncate(h.file, size.value) else h.file);
      if fault.LaterFails? then changed else changed.(dirty := true, autoSyncDisabled := true, autoSyncQueued := false)
  }

  function Released(h: Handle, staged: bool): Handle {
    if h.released then h
    else if !h.publishes || !h.dirty then h.(released := true)
    else h.(released := true, autoSyncQueued := false, dirty := !staged)
  }

  /** The end of a background run, and the size of the run that follows it, or 0. */
  function RunEnded(h: Handle, size: nat, failed: bool): (Handle, nat) {
    if failed then (h.(autoSyncQueued := false, autoSyncDisabled := true), 0)
    else
      var synced := h.(autoSyncQueued := false, autoSyncedSize := Max(size, h.autoSyncedSize));
      var next := ReadySize(synced);
      if next == 0 then (synced, 0) else (synced.(autoSyncQueued := true), next)
  }

  class LinuxFuseFileHandle {
    const autoSync: bool
    const publishes: bool
    var file: seq<Byte>
    var dirty: bool
    var sequentialDirty: bool
    var sequentialEnd: nat
    var autoSyncedSize: nat
    var autoSyncDisabled: bool
    var autoSyncQueued: bool
    var released: bool

    ghost function State(): Handle
      reads this
    {
      Handle(autoSync, publishes, file, dirty, sequentialDirty, sequentialEnd, autoSyncedSize, autoSyncDisabled,
             autoSyncQueued, released)
    }

    constructor (autoSync: bool, publishes: bool, file: seq<Byte>, dirty: bool)
      ensures State() == Handle(autoSync, publishes, file, dirty, false, 0, 0, false, false, false)
    {
      this.autoSync, this.publishes, this.file, this.dirty := autoSync, publishes, file, dirty;
      sequentialDirty, sequentialEnd, autoSyncedSize := false, 0, 0;
      autoSyncDisabled, autoSyncQueued, released := false, false, false;
    }

    method NoteWriteRange(off: nat, written: int)
      modifies this
      ensures State() == Noted(old(State()), off, written)
    {
      if written <= 0 {
        return;
      }
      var end := off + written;
      if !sequentialDirty {
        sequentialDirty := true;
        sequentialEnd := end;
        return;
      }
      if off == sequentialEnd {
        sequentialEnd := end;
        return;
      }
      autoSyncDisabled := true;
      autoSyncQueued := false;
      sequentialEnd := Max(sequentialEnd, end);
    }

    method AutoSyncReadySize() returns (ready: nat)
      ensures ready == ReadySize(State())
    {
      if !autoSync || autoSyncDisabled || !sequentialDirty {
        return 0;
      }
      var partSize := PartSize(Max(|file|, sequentialEnd));
      ready := sequentialEnd / partSize * partSize;
      if ready <= autoSyncedSize {
        ready := 0;
      }
    }

    /** Returns the size of the run to start, or 0. A write on a released handle fails on its closed file. */
    method Write(data: seq<Byte>, off: nat) returns (starts: nat)
      modifies this
      ensures (State(), starts) == Written(old(State()), data, off)
    {
      if released || |data| == 0 {
        return 0;
      }
      file := WriteAt(file, data, off);
      dirty := true;
      NoteWriteRange(off, |data|);
      starts := AutoSyncReadySize();
      if starts == 0 || autoSyncQueued {
        return 0;
      }
      autoSyncQueued := true;
    }

    method Setattr(size: Option<nat>, fault: AttrFault)
      modifies this
      ensures State() == AttrSet(old(State()), size, fault)
    {
      if size.Some? {
        if fault.TruncateFails? {
          return;
        }
        file := Truncate(file, size.value);
      }
      if fault.LaterFails? {
        return;
      }
      dirty := true;
      autoSyncDisabled := true;
      autoSyncQueued := false;
    }

    method Release(staged: bool)
      modifies this
      ensures State() == Released(old(State()), staged)
    {
      if released {
        return;
      }
      released := true;
      if !publishes || !dirty {
        return;
      }
      autoSyncQueued := false;
      if staged {
        dirty := false;
      }
    }

    method FinishRun(size: nat, failed: bool) returns (next: nat)
      modifies this
      ensures (State(), next) == RunEnded(old(State()), size, failed)
    {
      autoSyncQueued := false;
      if failed {
        autoSyncDisabled := true;
        return 0;
      }
      if size > autoSyncedSize {
        autoSyncedSize := size;
      }
      next := AutoSyncReadySize();
      if next > 0 {
        autoSyncQueued := true;
      }
    }
  }

  // ---------------------------------------------------------------- the handle and its background runs

  /** A run has been started, has found nothing to do, or has sent the first bytes of its range. */
  datatype Stage = Begun | Skipped | Sending(sent: seq<Byte>)

  datatype Run = Run(size: nat, stage: Stage)

  /** `uploaded` is the prefix that the multipart upload holds. */
  datatype World = World(handle: Handle, runs: seq<Run>, uploaded: seq<Byte>)

  function Opened(autoSync: bool, publishes: bool, file: seq<Byte>, dirty: bool): World {
    World(Handle(autoSync, publishes, file, dirty, false, 0, 0, false, false, false), [], [])
  }

  datatype Action =
    | Write(data: seq<Byte>, off: nat)
    | Setattr(size: Option<nat>, fault: AttrFault)
    | Release(staged: bool)
    | CheckRun(k: nat)
    | SendBytes(k: nat, n: nat)
    | EndRun(k: nat, failed: bool)

  predicate Enabled(w: World, a: Action) {
    match a
    case CheckRun(k) => k < |w.runs| && w.runs[k].stage.Begun?
    case SendBytes(k, n) =>
      k < |w.runs| && w.runs[k].stage.Sending? && |w.runs[k].stage.sent| + n <= w.runs[k].size <= |w.handle.file|
    case EndRun(k, failed) =>
      k < |w.runs| && (w.runs[k].stage.Skipped? ==> !failed) && !w.runs[k].stage.Begun?
      && (w.runs[k].stage.Sending? ==> failed || |w.runs[k].stage.sent| == w.runs[k].size)
    case _ => true
  }

  function Starts(w: World, h: Handle, size: nat): World {
    w.(handle := h, runs := if size > 0 then w.runs + [Run(size, Begun)] else w.runs)
  }

  function Step(w: World, a: Action): World {
    if !Enabled(w, a) then w
    else match a
      case Write(data, off) => var (h, size) := Written(w.handle, data, off); Starts(w, h, size)
      case Setattr(size, fault) => w.(handle := AttrSet(w.handle, size, fault))
      case Release(staged) => w.(handle := Released(w.handle, staged))
      case CheckRun(k) =>
        var h, run := w.handle, w.runs[k];
        var stage := if h.released || h.autoSyncDisabled || !h.autoSync || |h.file| < run.size then Skipped else Sending([]);
        w.(runs := w.runs[k := run.(stage := stage)])
      case SendBytes(k, n) =>
        var run := w.runs[k];
        var from := |run.stage.sent|;
        w.(runs := w.runs[k := run.(stage := Sending(run.stage.sent + w.handle.file[from..from + n]))])
      case EndRun(k, failed) =>
        var run := w.runs[k];
        var (h, size) := RunEnded(w.handle, run.size, failed);
        var rest := w.(runs := w.runs[..k] + w.runs[k + 1..],
                       uploaded := if !failed && run.stage.Sending? && run.size > |w.uploaded| then run.stage.sent
                                   else w.uploaded);
        Starts(rest, h, size)
  }

  // ---------------------------------------------------------------- what every run keeps

  /** Open, and never written out of order, truncated or failed. */
  predicate Live(h: Handle) {
    !h.released && !h.autoSyncDisabled
  }

  predicate RunOK(h: Handle, run: Run) {
    && h.autoSync && h.sequentialDirty && 0 < run.size <= h.sequentialEnd
    && (run.stage.Sending? ==> |run.stage.sent| <= run.size)
    && (!h.autoSyncDisabled && run.stage.Sending? ==> run.stage.sent <= h.file)
    && (Live(h) ==> !run.stage.Skipped?)
  }

  /** While autosync is on, everything sent or uploaded is a prefix of the file as it is now. */
  predicate PrefixOK(w: World) {
    var h := w.handle;
    && h.autoSyncedSize <= h.sequentialEnd
    && (!h.sequentialDirty ==> h.sequentialEnd == 0)
    && (!h.autoSyncDisabled ==> h.sequentialEnd <= |h.file|)
    && (Live(h) ==> w.uploaded <= h.file && |w.uploaded| == h.autoSyncedSize)
    && forall k :: 0 <= k < |w.runs| ==> RunOK(h, w.runs[k])
  }

  /** At most one run is live; while autosync is on, the flag says whether there is one. */
  predicate OneRun(w: World) {
    && |w.runs| <= 1
    && (Live(w.handle) ==> (w.handle.autoSyncQueued <==> |w.runs| == 1))
  }

  predicate Inv(w: World) {
    PrefixOK(w) && OneRun(w)
  }

  /** A write that keeps autosync on starts at the end of the writes so far, so it changes no byte before it. */
  lemma WriteStable(h: Handle, data: seq<Byte>, off: nat)
    requires !h.autoSyncDisabled ==> h.sequentialEnd <= |h.file|
    ensures var h' := Written(h, data, off).0;
            && (h.sequentialDirty ==> h.sequentialEnd <= h'.sequentialEnd)
            && (!h'.autoSyncDisabled ==> !h.autoSyncDisabled && h'.sequentialEnd <= |h'.file|)
            && (!h'.autoSyncDisabled && h.sequentialDirty ==> h.file[..h.sequentialEnd] <= h'.file)
  {
    if !h.released && data != [] {
      WriteAtPrefix(h.file, data, off);
    }
  }

  lemma WriteAtPrefix(file: seq<Byte>, data: seq<Byte>, off: nat)
    ensures off + |data| <= |WriteAt(file, data, off)|
    ensures off <= |file| ==> file[..off] <= WriteAt(file, data, off)
  {
  }

  lemma WriteKeeps(w: World, data: seq<Byte>, off: nat)
    requires Inv(w)
    ensures Inv(Step(w, Write(data, off)))
  {
    hide ReadySize, PartSize, WriteAt;
    WriteStable(w.handle, data, off);
    var h := w.handle;
    assert Live(h) ==> w.uploaded <= h.file[..h.sequentialEnd];
    forall k | 0 <= k < |w.runs|
      ensures RunOK(Written(h, data, off).0, w.runs[k])
    {
      var run := w.runs[k];
      assert run.stage.Sending? && !h.autoSyncDisabled ==> run.stage.sent <= h.file[..h.sequentialEnd];
    }
  }

  lemma RunStepKeeps(w: World, a: Action)
    requires Inv(w) && (a.CheckRun? || a.SendBytes?)
    ensures Inv(Step(w, a))
  {
    if Enabled(w, a) {
      var run := w.runs[a.k];
      assert RunOK(w.handle, run);
      if a.SendBytes? && !w.handle.autoSyncDisabled {
        var file, from := w.handle.file, |run.stage.sent|;
        assert run.stage.sent == file[..from] && file[..from] + file[from..from + a.n] == file[..from + a.n];
      }
    }
  }

  lemma EndRunKeeps(w: World, k: nat, failed: bool)
    requires Inv(w) && Enabled(w, EndRun(k, failed))
    ensures Inv(Step(w, EndRun(k, failed)))
  {
    hide ReadySize, PartSize;
    assert RunOK(w.handle, w.runs[k]) && k == 0 && w.runs[..k] + w.runs[k + 1..] == [];
  }

  /** An attribute change that cuts off bytes already counted on, and then fails, while autosync is on. */
  predicate Tears(h: Handle, a: Action) {
    a.Setattr? && a.fault.LaterFails? && a.size.Some? && a.size.value < h.sequentialEnd && !h.autoSyncDisabled
  }

  /** An attribute change keeps the invariant exactly when it does not tear the file under autosync. */
  lemma SetattrKeepsIff(w: World, size: Option<nat>, fault: AttrFault)
    requires Inv(w)
    ensures Inv(Step(w, Setattr(size, fault))) <==> !Tears(w.handle, Setattr(size, fault))
  {
    var h, h' := w.handle, AttrSet(w.handle, size, fault);
    if !h'.autoSyncDisabled && size.Some? && size.value >= h.sequentialEnd {
      TruncatePrefix(h.file, size.value, h.sequentialEnd);
      assert Live(h) ==> w.uploaded <= h.file[..h.sequentialEnd];
      forall k | 0 <= k < |w.runs|
        ensures RunOK(h', w.runs[k])
      {
        var run := w.runs[k];
        assert RunOK(h, run);
        assert run.stage.Sending? ==> run.stage.sent <= h.file[..h.sequentialEnd];
      }
    }
  }

  lemma TruncatePrefix(file: seq<Byte>, size: nat, end: nat)
    requires end <= size && end <= |file|
    ensures end <= |Truncate(file, size)| && file[..end] <= Truncate(file, size)
  {
  }

  lemma StepKeeps(w: World, a: Action)
    requires Inv(w) && !Tears(w.handle, a)
    ensures Inv(Step(w, a))
  {
    hide ReadySize, PartSize, WriteAt;
    if Enabled(w, a) {
      match a {
        case Write(data, off) => WriteKeeps(w, data, off);
        case EndRun(k, failed) => EndRunKeeps(w, k, failed);
        case CheckRun(_) => RunStepKeeps(w, a);
        case SendBytes(_, _) => RunStepKeeps(w, a);
        case Setattr(size, fault) => SetattrKeepsIff(w, size, fault);
        case _ =>
      }
    }
  }

  function Runs(w: World, trace: seq<Action>): World
    decreases |trace|
  {
    if trace == [] then w else Runs(Step(w, trace[0]), trace[1..])
  }

  predicate Untorn(w: World, trace: seq<Action>)
    decreases |trace|
  {
    trace == [] || (!Tears(w.handle, trace[0]) && Untorn(Step(w, trace[0]), trace[1..]))
  }

  lemma {:induction false} RunKeeps(w: World, trace: seq<Action>)
    requires Inv(w) && Untorn(w, trace)
    ensures Inv(Runs(w, trace))
    decreases |trace|
  {
    if trace == [] {
    } else {
      StepKeeps(w, trace[0]);
      RunKeeps(Step(w, trace[0]), trace[1..]);
    }
  }

  /** In every state of a handle at most one background run is live, and while the handle is open and autosync is
      still on, what has been uploaded is exactly the first `autoSyncedSize` bytes of the file. */
  lemma UploadedIsPrefix(autoSync: bool, publishes: bool, file: seq<Byte>, dirty: bool, trace: seq<Action>)
    requires Untorn(Opened(autoSync, publishes, file, dirty), trace)
    ensures var w := Runs(Opened(autoSync, publishes, file, dirty), trace);
            && |w.runs| <= 1
            && (Live(w.handle) ==> w.uploaded <= w.handle.file && |w.uploaded| == w.handle.autoSyncedSize)
            && (!w.handle.autoSyncDisabled ==> forall k :: 0 <= k < |w.runs| && w.runs[k].stage.Sending? ==>
                                                 w.runs[k].stage.sent <= w.handle.file)
  {
    var w := Opened(autoSync, publishes, file, dirty);
    RunKeeps(w, trace);
    var r := Runs(w, trace);
    assert forall k :: 0 <= k < |r.runs| ==> RunOK(r.handle, r.runs[k]);
  }

  lemma StepStable(w: World, a: Action)
    requires Inv(w) && !Tears(w.handle, a)
    ensures var h, h' := w.handle, Step(w, a).handle;
            && h.autoSyncedSize <= h'.autoSyncedSize && (h.autoSyncDisabled ==> h'.autoSyncDisabled)
            && (!h'.autoSyncDisabled && h.sequentialDirty ==>
                  h'.sequentialDirty && h.sequentialEnd <= h'.sequentialEnd && h.file[..h.sequentialEnd] <= h'.file)
  {
    hide ReadySize, PartSize, WriteAt;
    if a.Write? {
      WriteStable(w.handle, a.data, a.off);
    } else if a.Setattr? && a.size.Some? && a.size.value >= w.handle.sequentialEnd && !w.handle.autoSyncDisabled {
      TruncatePrefix(w.handle.file, a.size.value, w.handle.sequentialEnd);
    }
  }

  /** The pre-uploaded prefix is stable: from any state on, as long as autosync is still on in the end, no byte
      below the end of the writes has changed, and so none below a ready size, which is never beyond that end; and
      the synced size has not shrunk. */
  lemma {:induction false} PrefixStable(w: World, trace: seq<Action>)
    requires Inv(w) && Untorn(w, trace)
    ensures var h, h' := w.handle, Runs(w, trace).handle;
            && h.autoSyncedSize <= h'.autoSyncedSize && (h.autoSyncDisabled ==> h'.autoSyncDisabled)
            && (!h'.autoSyncDisabled && h.sequentialDirty ==>
                  h'.sequentialDirty && h.sequentialEnd <= h'.sequentialEnd && h.sequentialEnd <= |h.file|
                  && h.file[..h.sequentialEnd] <= h'.file)
    decreases |trace|
  {
    if trace == [] {
    } else {
      var w' := Step(w, trace[0]);
      StepKeeps(w, trace[0]);
      StepStable(w, trace[0]);
      PrefixStable(w', trace[1..]);
      var h, h', h'' := w.handle, w'.handle, Runs(w, trace).handle;
      if !h''.autoSyncDisabled && h.sequentialDirty {
        PrefixOfPrefix(h.file, h'.file, h''.file, h.sequentialEnd, h'.sequentialEnd);
      }
    }
  }

  lemma PrefixOfPrefix(a: seq<Byte>, b: seq<Byte>, c: seq<Byte>, m: nat, n: nat)
    requires m <= |a| && m <= n <= |b| && a[..m] <= b && b[..n] <= c
    ensures a[..m] <= c
  {
    assert a[..m] == b[..m] == b[..n][..m];
    assert b[..n] == c[..n];
    assert c[..n][..m] == c[..m];
  }

  /** Each ready size handed to a run is a whole number of parts of the size chosen then, and within the writes. */
  lemma ScheduledWhole(w: World, a: Action)
    requires Inv(w) && Enabled(w, a) && (a.Write? || a.EndRun?)
    ensures var h := Step(w, a).handle;
            forall run :: run in Step(w, a).runs && run !in w.runs ==>
              run.size % PartSize(Max(|h.file|, h.sequentialEnd)) == 0 && 0 < run.size <= h.sequentialEnd
  {
    hide PartSize, WriteAt, ReadySize;
  }

  // ---------------------------------------------------------------- when autosync is off, and when runs end

  /** What a write makes of the sequence of writes: the first one begins it, one at its end extends it, any other one ends
      autosync; nothing else is written than the data. */
  lemma WriteExtends(w: World, data: seq<Byte>, off: nat)
    requires !w.handle.released
    ensures var h, h' := w.handle, Step(w, Write(data, off)).handle;
            if data == [] then h' == h
            else
              && h'.sequentialDirty && h'.dirty && h'.file == WriteAt(h.file, data, off)
              && h'.autoSyncedSize == h.autoSyncedSize
              && (if h.sequentialDirty && off != h.sequentialEnd then
                    && h'.autoSyncDisabled && !h'.autoSyncQueued
                    && h'.sequentialEnd == (if off + |data| > h.sequentialEnd then off + |data| else h.sequentialEnd)
                  else h'.autoSyncDisabled == h.autoSyncDisabled && h'.sequentialEnd == off + |data|)
  {
    hide WriteAt, PartSize;
  }

  /** A write that wrote nothing is not noted. */
  lemma NothingNoted(h: Handle, off: nat, written: int)
    requires written <= 0
    ensures Noted(h, off, written) == h
  {
  }

  /** What a write puts where. */
  lemma WriteAtIs(file: seq<Byte>, data: seq<Byte>, off: nat, i: nat)
    requires i < |WriteAt(file, data, off)|
    ensures |WriteAt(file, data, off)| == Max(|file|, off + |data|)
    ensures WriteAt(file, data, off)[i] ==
              if off <= i < off + |data| then data[i - off] else if i < |file| then file[i] else 0
  {
  }

  /** What a truncation leaves: the first bytes, and zeros behind a shorter file. */
  lemma TruncateIs(file: seq<Byte>, size: nat, i: nat)
    requires i < size
    ensures |Truncate(file, size)| == size && Truncate(file, size)[i] == if i < |file| then file[i] else 0
  {
  }

  /** An attribute change without a size truncates nothing, and so does not fail there. */
  lemma SetattrIs(w: World, size: Option<nat>, fault: AttrFault)
    ensures var h, h' := w.handle, Step(w, Setattr(size, fault)).handle;
            if size.Some? && fault.TruncateFails? then h' == h
            else
              && h'.file == (if size.Some? then Truncate(h.file, size.value) else h.file)
              && (if fault.LaterFails? then h' == h.(file := h'.file)
                  else h'.dirty && h'.autoSyncDisabled && !h'.autoSyncQueued)
  {
  }

  /** Once autosync is off, no run is announced and none starts any more. */
  ghost predicate Off(w: World) {
    w.handle.autoSyncDisabled && !w.handle.autoSyncQueued
  }

  lemma WriteOff(w: World, data: seq<Byte>, off: nat)
    requires w.handle.autoSyncDisabled ==> !w.handle.autoSyncQueued
    ensures var w' := Step(w, Write(data, off));
            && (w'.handle.autoSyncDisabled ==> !w'.handle.autoSyncQueued)
            && (w.handle.autoSyncDisabled ==> Off(w') && w'.runs == w.runs)
  {
    hide WriteAt, PartSize;
  }

  lemma EndOff(w: World, k: nat, failed: bool)
    requires w.handle.autoSyncDisabled ==> !w.handle.autoSyncQueued
    requires Enabled(w, EndRun(k, failed))
    ensures var w' := Step(w, EndRun(k, failed));
            && (w'.handle.autoSyncDisabled ==> !w'.handle.autoSyncQueued)
            && (w.handle.autoSyncDisabled || failed ==> Off(w') && |w'.runs| == |w.runs| - 1)
  {
    hide PartSize;
  }

  lemma StepOff(w: World, a: Action)
    requires w.handle.autoSyncDisabled ==> !w.handle.autoSyncQueued
    ensures var w' := Step(w, a);
            && (w'.handle.autoSyncDisabled ==> !w'.handle.autoSyncQueued)
            && (w.handle.autoSyncDisabled ==> Off(w') && |w'.runs| <= |w.runs|)
            && (a.Setattr? && a.fault.NoFault? ==> Off(w'))
  {
    hide Written, RunEnded;
    if a.Write? {
      WriteOff(w, a.data, a.off);
    } else if a.EndRun? && Enabled(w, a) {
      EndOff(w, a.k, a.failed);
    }
  }

  /** A run that fails, an attribute change, or a write out of order is the end of it, for good. */
  lemma {:induction false} StaysOff(w: World, trace: seq<Action>)
    requires w.handle.autoSyncDisabled ==> !w.handle.autoSyncQueued
    ensures var w' := Runs(w, trace);
            && (w'.handle.autoSyncDisabled ==> !w'.handle.autoSyncQueued)
            && (w.handle.autoSyncDisabled ==> Off(w') && |w'.runs| <= |w.runs|)
    decreases |trace|
  {
    if trace == [] {
    } else {
      hide Step;
      StepOff(w, trace[0]);
      StaysOff(Step(w, trace[0]), trace[1..]);
    }
  }

  /** A run that finds the handle released, or autosync off, or fewer bytes than it was started for, sends nothing; and one
      that fails adds nothing to the upload. */
  lemma RunHeedsHandle(w: World, k: nat)
    requires k < |w.runs|
    ensures w.runs[k].stage.Begun? ==>
              (Step(w, CheckRun(k)).runs[k].stage == Skipped <==>
                 w.handle.released || w.handle.autoSyncDisabled || !w.handle.autoSync || |w.handle.file| < w.runs[k].size)
    ensures Step(w, EndRun(k, true)).uploaded == w.uploaded
  {
  }

  /** A run that ends well is followed by another one as soon as a whole part more has been written, and a write starts one
      when a whole part is ready and none is announced. */
  lemma ReadyStarts(w: World, a: Action, ready: nat)
    requires Enabled(w, a) && (a.EndRun? || (a.Write? && a.data != [] && !w.handle.released && !w.handle.autoSyncQueued))
    requires var h := Step(w, a).handle; var part := PartSize(Max(|h.file|, h.sequentialEnd));
             && h.autoSync && !h.autoSyncDisabled && h.sequentialDirty && h.autoSyncedSize < ready
             && ready % part == 0 && ready <= h.sequentialEnd < ready + part
    ensures var w' := Step(w, a);
            w'.handle.autoSyncQueued && w'.runs != [] && w'.runs[|w'.runs| - 1] == Run(ready, Begun)
  {
    hide WriteAt, PartSize, ReadySize;
    var h := Step(w, a).handle;
    ReadyIs(h, ready);
    ReadyFlag(h);
    if a.Write? {
      ReadyFlag(Noted(w.handle.(file := WriteAt(w.handle.file, a.data, a.off), dirty := true), a.off, |a.data|));
    } else {
      ReadyFlag(w.handle.(autoSyncQueued := false, autoSyncedSize := Max(w.runs[a.k].size, w.handle.autoSyncedSize)));
    }
  }

  /** The ready size does not depend on what is announced. */
  lemma ReadyFlag(h: Handle)
    ensures ReadySize(h.(autoSyncQueued := true)) == ReadySize(h.(autoSyncQueued := false)) == ReadySize(h)
  {
  }

  /** It is the largest whole number of parts within the writes. */
  lemma ReadyIs(h: Handle, ready: nat)
    requires var part := PartSize(Max(|h.file|, h.sequentialEnd));
             && h.autoSync && !h.autoSyncDisabled && h.sequentialDirty && h.autoSyncedSize < ready
             && ready % part == 0 && ready <= h.sequentialEnd < ready + part
    ensures ReadySize(h) == ready
  {
    hide PartSize;
    var part := PartSize(Max(|h.file|, h.sequentialEnd));
    SameParts(h.sequentialEnd, ready, part);
  }

  lemma SameParts(n: nat, ready: nat, part: nat)
    requires part > 0 && ready % part == 0 && ready <= n < ready + part
    ensures n / part * part == ready
  {
    var q, m := n / part, ready / part;
    WholeParts(n, part);
    WholeParts(ready, part);
    ExactParts(ready, part);
    Distribute(q, m, part);
    if q - m >= 1 {
      TimesAtLeast(q - m, part);
    } else if m - q >= 1 {
      Distribute(m, q, part);
      TimesAtLeast(m - q, part);
    }
  }

  lemma ExactParts(n: nat, part: nat)
    requires part > 0 && n % part == 0
    ensures n / part * part == n
  {
  }

  lemma Distribute(a: int, b: int, part: int)
    ensures a * part - b * part == (a - b) * part
  {
  }

  /** A run that finds nothing to do ends without a failure, one that has sent all its bytes may do so, and one that is on
      its way can always go on or fail. */
  lemma RunGoesOn(w: World, k: nat)
    requires k < |w.runs|
    ensures var run := w.runs[k];
            match run.stage
            case Begun =>
              && Enabled(w, CheckRun(k)) && Step(w, CheckRun(k)).runs[k].stage != Begun
              && !Enabled(w, EndRun(k, true)) && !Enabled(w, EndRun(k, false))
            case Skipped => Enabled(w, EndRun(k, false)) && !Enabled(w, EndRun(k, true)) && !Enabled(w, CheckRun(k))
            case Sending(sent) =>
              && Enabled(w, EndRun(k, true)) && !Enabled(w, CheckRun(k)) && (Enabled(w, EndRun(k, false)) <==> |sent| == run.size)
              && (|sent| < run.size <= |w.handle.file| ==> Enabled(w, SendBytes(k, run.size - |sent|)))
  {
  }

  // ---------------------------------------------------------------- what a handle publishes

  /** What has been published of the file: its contents at the release that has staged it, or at first. */
  function Published(w: World, trace: seq<Action>, base: seq<Byte>): seq<Byte>
    decreases |trace|
  {
    if trace == [] then base
    else
      var h, a := w.handle, trace[0];
      var staged := a.Release? && a.staged && !h.released && h.publishes && h.dirty;
      Published(Step(w, a), trace[1..], if staged then h.file else base)
  }

  /** An attribute change that cuts or extends the file and then fails. */
  predicate HalfSet(a: Action) {
    a.Setattr? && a.fault.LaterFails? && a.size.Some?
  }

  lemma StepDirty(w: World, a: Action)
    requires !HalfSet(a)
    ensures var h, h' := w.handle, Step(w, a).handle;
            && (h'.file != h.file ==> h'.dirty)
            && (h.dirty && !h'.dirty ==>
                  a.Release? && a.staged && !h.released && h.publishes && h'.released && h'.file == h.file)
            && (a.Release? ==> h'.released && h'.file == h.file)
            && (a.Release? && a.staged && !h.released && h.publishes ==> !h'.dirty)
            && (a.Release? && !a.staged ==> h'.dirty == h.dirty)
            && (a.Release? && !h.released && h.publishes && h.dirty ==> !h'.autoSyncQueued)
            && (h.released ==> h'.released && (!a.Setattr? ==> h'.file == h.file && h'.dirty == h.dirty))
  {
    hide ReadySize, WriteAt;
    if a.Write? && !w.handle.released && a.data == [] {
      assert Step(w, a).handle == w.handle;
    }
  }

  /** No change is lost: in any run without an attribute change that fails half way, a handle that is clean holds exactly
      what has been published, and only a release that has staged the file makes a changed one clean. */
  lemma {:induction false} CleanIsPublished(w: World, trace: seq<Action>, base: seq<Byte>)
    requires !w.handle.dirty ==> w.handle.file == base
    requires forall i :: 0 <= i < |trace| ==> !HalfSet(trace[i])
    ensures var h := Runs(w, trace).handle; !h.dirty ==> h.file == Published(w, trace, base)
    decreases |trace|
  {
    if trace == [] {
    } else {
      hide Step;
      assert !HalfSet(trace[0]);
      StepDirty(w, trace[0]);
      var h, a := w.handle, trace[0];
      var staged := a.Release? && a.staged && !h.released && h.publishes && h.dirty;
      assert forall i :: 0 <= i < |trace[1..]| ==> trace[1..][i] == trace[i + 1];
      CleanIsPublished(Step(w, a), trace[1..], if staged then h.file else base);
    }
  }

  /** Such an attribute change alone is: it may cut a clean file and leave it clean, so that no release publishes it. */
  lemma HalfSetUnpublished(publishes: bool, file: seq<Byte>, size: nat)
    requires size < |file|
    ensures var w := Step(Step(Opened(true, publishes, file, false), Setattr(Some(size), LaterFails)), Release(true));
            w.handle.released && !w.handle.dirty && w.handle.file == file[..size]
  {
  }

  // ---------------------------------------------------------------- a torn attribute change

  /** When it tears the file below what has been uploaded, autosync stays on over a file the upload no longer
      matches. */
  lemma TornSetattrMismatch(w: World, size: nat)
    requires Inv(w) && Live(w.handle) && size < w.handle.autoSyncedSize
    ensures var r := Step(w, Setattr(Some(size), LaterFails)); Live(r.handle) && !(r.uploaded <= r.handle.file)
  {
  }

  const PART := 64 * MIB

  /** A write of one whole part, and the background run that uploads it. */
  function OnePart(data: seq<Byte>): seq<Action> {
    [Write(data, 0), CheckRun(0), SendBytes(0, PART), EndRun(0, false)]
  }

  /** A handle that has written `data`, all of which has been uploaded. */
  function PartUploaded(publishes: bool, data: seq<Byte>): World {
    World(Handle(true, publishes, data, true, true, PART, PART, false, false, false), [], data)
  }

  lemma OnePartReady(publishes: bool, data: seq<Byte>, synced: nat)
    requires |data| == PART && (synced == 0 || synced == PART)
    ensures ReadySize(Handle(true, publishes, data, true, true, PART, synced, false, false, false)) == PART - synced
  {
    assert PartSize(PART) == PART && PART / PART * PART == PART;
  }

  lemma PartWritten(publishes: bool, data: seq<Byte>)
    requires |data| == PART
    ensures Step(Opened(true, publishes, [], false), Write(data, 0))
         == World(Handle(true, publishes, data, true, true, PART, 0, false, true, false), [Run(PART, Begun)], [])
  {
    hide ReadySize, PartSize;
    OnePartReady(publishes, data, 0);
    assert WriteAt([], data, 0) == data;
    assert [] + [Run(PART, Begun)] == [Run(PART, Begun)];
  }

  lemma PartSent(publishes: bool, data: seq<Byte>)
    requires |data| == PART
    ensures var h := Handle(true, publishes, data, true, true, PART, 0, false, true, false);
            && Step(World(h, [Run(PART, Begun)], []), CheckRun(0)) == World(h, [Run(PART, Sending([]))], [])
            && Step(World(h, [Run(PART, Sending([]))], []), SendBytes(0, PART)) == World(h, [Run(PART, Sending(data))], [])
  {
    assert [] + data[0..PART] == data;
  }

  lemma PartEnded(publishes: bool, data: seq<Byte>)
    requires |data| == PART
    ensures var h := Handle(true, publishes, data, true, true, PART, 0, false, true, false);
            Step(World(h, [Run(PART, Sending(data))], []), EndRun(0, false)) == PartUploaded(publishes, data)
  {
    hide ReadySize, PartSize;
    OnePartReady(publishes, data, PART);
  }

  lemma AfterOnePart(publishes: bool, data: seq<Byte>)
    requires |data| == PART
    ensures Runs(Opened(true, publishes, [], false), OnePart(data)) == PartUploaded(publishes, data)
  {
    hide Step, Opened, PartUploaded;
    PartWritten(publishes, data);
    PartSent(publishes, data);
    PartEnded(publishes, data);
    var trace := OnePart(data);
    assert trace[1..] == [CheckRun(0), SendBytes(0, PART), EndRun(0, false)];
    assert trace[1..][1..] == [SendBytes(0, PART), EndRun(0, false)];
    assert trace[1..][1..][1..] == [EndRun(0, false)] && [EndRun(0, false)][1..] == [];
    var w1 := Step(Opened(true, publishes, [], false), trace[0]);
    var w2 := Step(w1, CheckRun(0));
    var w3 := Step(w2, SendBytes(0, PART));
    assert Runs(w3, [EndRun(0, false)]) == Step(w3, EndRun(0, false));
    assert Runs(w1, trace[1..]) == Runs(w2, trace[1..][1..]) == Runs(w3, [EndRun(0, false)]);
  }

  /** A new file is written up to its first part, the part is uploaded, and a truncation fails half way: the handle goes
      on uploading behind bytes that the file no longer has. */
  lemma TornAfterUpload(publishes: bool, data: seq<Byte>, size: nat)
    requires |data| == PART && size < PART
    ensures var w := Runs(Opened(true, publishes, [], false), OnePart(data) + [Setattr(Some(size), LaterFails)]);
            && Live(w.handle) && w.handle.autoSync && w.uploaded == data && w.handle.autoSyncedSize == PART
            && w.handle.file == data[..size]
  {
    var torn := [Setattr(Some(size), LaterFails)];
    AfterOnePart(publishes, data);
    RunsConcat(Opened(true, publishes, [], false), OnePart(data), torn);
    assert torn[1..] == [];
    assert Runs(PartUploaded(publishes, data), torn) == Step(PartUploaded(publishes, data), torn[0]);
  }

  lemma {:induction false} RunsConcat(w: World, a: seq<Action>, b: seq<Action>)
    ensures Runs(w, a + b) == Runs(Runs(w, a), b)
    decreases |a|
  {
    hide Step;
    if a == [] {
      assert a + b == b;
    } else {
      assert (a + b)[0] == a[0] && (a + b)[1..] == a[1..] + b;
      RunsConcat(Step(w, a[0]), a[1..], b);
    }
  }
}
