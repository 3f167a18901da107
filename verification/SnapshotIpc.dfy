/**
 The snapshot file between the daemon and its readers, as a state machine over single system calls:
 the daemon writes `snap.tmp` in chunks and renames it to `snap.bin`, may fail or be killed at any call
 and be started again, `stop` unlinks `snap.bin` at any time, and any number of readers check, open and
 read `snap.bin` in chunks in between. Names and inodes are kept apart: a reader goes on reading the
 inode it opened.
 */
module SnapshotIpc {
  import opened Text

  type Bytes = seq<bv8>

  /** `image` is history: the number of the capture that was last written here. */
  datatype Inode = Inode(image: nat, data: Bytes, mtime: int)

  /** The daemon, one live process at most: asleep, with snapshot `k` in memory, or writing it to the tmp file. */
  datatype Daemon = Dead | Asleep | Captured(k: nat) | Writing(k: nat, done: nat)

  /** A delivered snapshot; `checked` and `from` are history: the inodes that were checked and read. */
  datatype Delivery = Delivery(checked: nat, from: nat, bytes: Bytes)

  datatype Phase = Resting | Checked(checked: nat) | Reading(checked: nat, from: nat, got: Bytes)

  /** `short`: some read ended in a file too small to be a snapshot. */
  datatype Reader = Reader(phase: Phase, delivered: seq<Delivery>, short: bool)

  /** `captures` is history: every snapshot taken so far, in order; `size` is `sizeof(benchmon_snapshot_t)`. */
  datatype State = State(
    size: nat, now: int, captures: seq<Bytes>, inodes: seq<Inode>, tmp: Option<nat>, snap: Option<nat>,
    daemon: Daemon, readers: map<nat, Reader>)

  datatype Step =
    | Clock(time: int)
    | StartDaemon
    | Kill
    | Capture(image: Bytes)
    | OpenTmp
    | WriteChunk(n: nat)
    | FailWrite
    | Rename(ok: bool)
    | UnlinkSnap
    | Join(r: nat)
    | Check(r: nat)
    | Open(r: nat)
    | ReadChunk(r: nat, n: nat)
    | Finish(r: nat)
    | GiveUp(r: nat)

  // ---- The daemon's calls -----------------------------------------------------------

  /** `fs::write` opens the tmp file: the old inode truncated if the name exists, else a new one. */
  function OpenedTmp(s: State, k: nat): State
    requires s.tmp.Some? ==> s.tmp.value < |s.inodes|
  {
    var empty := Inode(k, [], s.now);
    match s.tmp
    case Some(t) => s.(inodes := s.inodes[t := empty], daemon := Writing(k, 0))
    case None => s.(inodes := s.inodes + [empty], tmp := Some(|s.inodes|), daemon := Writing(k, 0))
  }

  /** One `write` of at most `n` bytes. */
  function Written(s: State, n: nat): State
    requires s.daemon.Writing? && s.daemon.k < |s.captures| && s.daemon.done <= |s.captures[s.daemon.k]|
    requires s.tmp.Some? && s.tmp.value < |s.inodes|
  {
    var t, k, done := s.tmp.value, s.daemon.k, s.daemon.done;
    var chunk := Take(s.captures[k][done..], n);
    var inode := s.inodes[t];
    s.(inodes := s.inodes[t := inode.(data := inode.data + chunk, mtime := s.now)],
       daemon := Writing(k, done + |chunk|))
  }

  function DaemonStep(s: State, step: Step): State
    requires WellFormed(s)
  {
    match step
    case StartDaemon => if s.daemon.Dead? then s.(daemon := Asleep) else s
    case Kill => s.(daemon := Dead)
    case Capture(image) =>
      if s.daemon.Asleep? && |image| == s.size
      then s.(captures := s.captures + [image], daemon := Captured(|s.captures|)) else s
    case OpenTmp => if s.daemon.Captured? then OpenedTmp(s, s.daemon.k) else s
    case WriteChunk(n) => if s.daemon.Writing? then Written(s, n) else s
    case FailWrite => if s.daemon.Captured? || s.daemon.Writing? then s.(daemon := Asleep) else s
    case Rename(ok) =>
      if s.daemon.Writing? && s.daemon.done == |s.captures[s.daemon.k]|
      then if ok then s.(snap := s.tmp, tmp := None, daemon := Asleep) else s.(daemon := Asleep)
      else s
    case _ => s
  }

  // ---- A reader's calls ---------------------------------------------------------------

  /** `read_latest_snapshot` on the age of the file; a modification time in the future is no age. */
  predicate Fresh(now: int, mtime: int) {
    mtime <= now && now - mtime < 2000
  }

  function ReaderStep(s: State, r: Reader, step: Step): Reader
    requires WellFormed(s) && PhaseOk(s, r.phase)
  {
    match step
    case Check(_) =>
      if r.phase == Resting && s.snap.Some? && Fresh(s.now, s.inodes[s.snap.value].mtime)
      then r.(phase := Checked(s.snap.value)) else r
    case Open(_) =>
      if r.phase.Checked? then
        r.(phase := if s.snap.Some? then Reading(r.phase.checked, s.snap.value, []) else Resting)
      else r
    case ReadChunk(_, n) =>
      if r.phase.Reading? then
        var data := s.inodes[r.phase.from].data;
        var got := r.phase.got;
        r.(phase := r.phase.(got := got + if |got| <= |data| then Take(data[|got|..], n) else []))
      else r
    case Finish(_) =>
      // End of file, then the size check and the copy of `size` bytes in `snapshot_from_bytes`.
      if r.phase.Reading? && |r.phase.got| >= |s.inodes[r.phase.from].data| then
        if |r.phase.got| < s.size then r.(phase := Resting, short := true)
        else
          var d := Delivery(r.phase.checked, r.phase.from, r.phase.got[..s.size]);
          r.(phase := Resting, delivered := r.delivered + [d])
      else r
    case GiveUp(_) => r.(phase := Resting)
    case _ => r
  }

  predicate IsReaderStep(step: Step) {
    step.Check? || step.Open? || step.ReadChunk? || step.Finish? || step.GiveUp?
  }

  // ---- The machine --------------------------------------------------------------------

  predicate WellFormed(s: State) {
    && (s.tmp.Some? ==> s.tmp.value < |s.inodes|)
    && (s.snap.Some? ==> s.snap.value < |s.inodes|)
    && (s.daemon.Writing? ==> s.tmp.Some? && s.daemon.k < |s.captures| && s.daemon.done <= |s.captures[s.daemon.k]|)
  }

  predicate PhaseOk(s: State, p: Phase) {
    match p
    case Resting => true
    case Checked(i) => i < |s.inodes|
    case Reading(i, j, _) => i < |s.inodes| && j < |s.inodes|
  }

  predicate AllPhasesOk(s: State) {
    forall r :: r in s.readers ==> PhaseOk(s, s.readers[r].phase)
  }

  /** A step that is not enabled changes nothing. */
  function Next(s: State, step: Step): State
    requires WellFormed(s) && AllPhasesOk(s)
  {
    if step.Clock? then s.(now := step.time)
    else if step.UnlinkSnap? then s.(snap := None)
    else if step.Join? then
      if step.r in s.readers then s else s.(readers := s.readers[step.r := Reader(Resting, [], false)])
    else if IsReaderStep(step) then
      if step.r in s.readers then s.(readers := s.readers[step.r := ReaderStep(s, s.readers[step.r], step)]) else s
    else DaemonStep(s, step)
  }

  // ---- What every step keeps ----------------------------------------------------------

  /** An inode without the tmp name has been renamed: nobody writes to it any more. */
  ghost predicate Published(s: State, i: nat) {
    i < |s.inodes| && s.tmp != Some(i)
  }

  ghost predicate Complete(s: State, i: nat) {
    Published(s, i) && s.inodes[i].image < |s.captures| && s.inodes[i].data == s.captures[s.inodes[i].image]
  }

  /** The files: published inodes are complete images, in capture order, and `snap.bin` is the latest one. */
  ghost predicate FilesOk(s: State) {
    && WellFormed(s)
    && (forall k :: 0 <= k < |s.captures| ==> |s.captures[k]| == s.size)
    && (forall i: nat :: Published(s, i) ==> Complete(s, i))
    && (forall i, j :: 0 <= i < j < |s.inodes| ==> s.inodes[i].image < s.inodes[j].image)
    && (forall i :: 0 <= i < |s.inodes| ==> s.inodes[i].image < |s.captures|)
    && (s.tmp.Some? ==> s.tmp.value == |s.inodes| - 1)
    && (s.snap.Some? ==> Published(s, s.snap.value) && forall i: nat :: Published(s, i) ==> i <= s.snap.value)
  }

  /** The daemon: what it holds in memory is the last capture, and the tmp file is a prefix of it. */
  ghost predicate DaemonOk(s: State) {
    match s.daemon
    case Captured(k) =>
      k == |s.captures| - 1 && forall i :: 0 <= i < |s.inodes| ==> s.inodes[i].image < k
    case Writing(k, done) =>
      k < |s.captures| && s.tmp.Some? && s.tmp.value < |s.inodes| && done <= |s.captures[k]| &&
      s.inodes[s.tmp.value].image == k && s.inodes[s.tmp.value].data == s.captures[k][..done]
    case _ => true
  }

  ghost predicate DeliveryOk(s: State, d: Delivery) {
    Complete(s, d.from) && Complete(s, d.checked) && d.checked <= d.from && d.bytes == s.inodes[d.from].data
  }

  ghost predicate InOrder(ds: seq<Delivery>) {
    forall i, j :: 0 <= i < j < |ds| ==> ds[i].from <= ds[j].from
  }

  /** The inode a read in progress will deliver is no older than anything delivered before. */
  ghost predicate ReadOk(s: State, r: Reader) {
    match r.phase
    case Resting => true
    case Checked(i) => Published(s, i) && forall d :: d in r.delivered ==> d.from <= i
    case Reading(i, j, got) =>
      Published(s, i) && Published(s, j) && i <= j && got <= s.inodes[j].data &&
      forall d :: d in r.delivered ==> d.from <= i
  }

  ghost predicate ReaderOk(s: State, r: Reader) {
    !r.short && InOrder(r.delivered) && ReadOk(s, r) && forall d :: d in r.delivered ==> DeliveryOk(s, d)
  }

  ghost predicate Inv(s: State) {
    FilesOk(s) && DaemonOk(s) && AllPhasesOk(s) && forall r :: r in s.readers ==> ReaderOk(s, s.readers[r])
  }

  /** What a step may do to the world of a reader: captures grow, published inodes stay as they are. */
  ghost predicate Grows(s: State, t: State) {
    && s.captures <= t.captures
    && |s.inodes| <= |t.inodes|
    && t.readers == s.readers
    && forall i: nat :: Published(s, i) ==> Published(t, i) && t.inodes[i] == s.inodes[i]
  }

  lemma ReadersUnmoved(s: State, t: State)
    requires Inv(s) && Grows(s, t) && FilesOk(t)
    ensures AllPhasesOk(t) && forall r :: r in t.readers ==> ReaderOk(t, t.readers[r])
  {
    forall r | r in t.readers
      ensures PhaseOk(t, t.readers[r].phase) && ReaderOk(t, t.readers[r])
    {
      var reader := s.readers[r];
      assert ReaderOk(s, reader);
      forall d | d in reader.delivered ensures DeliveryOk(t, d) {
        assert DeliveryOk(s, d);
        assert Published(s, d.from) && Published(s, d.checked);
      }
    }
  }

  lemma OpenKeeps(s: State)
    requires Inv(s) && s.daemon.Captured?
    ensures var t := OpenedTmp(s, s.daemon.k); FilesOk(t) && DaemonOk(t) && Grows(s, t)
  {
    var t := OpenedTmp(s, s.daemon.k);
    forall i: nat | Published(t, i) ensures Published(s, i) && Complete(t, i) {
      assert Complete(s, i);
    }
    forall i: nat | Published(s, i) ensures Published(t, i) && t.inodes[i] == s.inodes[i] {}
  }

  lemma NextChunk(image: Bytes, done: nat, n: nat)
    requires done <= |image|
    ensures var chunk := Take(image[done..], n);
            done + |chunk| <= |image| && image[..done] + chunk == image[..done + |chunk|]
  {
    var rest := image[done..];
    assert forall i :: 0 <= i < |rest| ==> rest[i] == image[done + i];
  }

  lemma WriteKeeps(s: State, n: nat)
    requires Inv(s) && s.daemon.Writing?
    ensures var t := Written(s, n); FilesOk(t) && DaemonOk(t) && Grows(s, t)
  {
    var t := Written(s, n);
    var k, done := s.daemon.k, s.daemon.done;
    var image := s.captures[k];
    var chunk := Take(image[done..], n);
    NextChunk(image, done, n);
    forall i: nat | Published(t, i) ensures Published(s, i) && Complete(t, i) {
      assert Complete(s, i);
    }
  }

  lemma CaptureKeeps(s: State, image: Bytes)
    requires Inv(s) && s.daemon.Asleep? && |image| == s.size
    ensures var t := s.(captures := s.captures + [image], daemon := Captured(|s.captures|));
            FilesOk(t) && DaemonOk(t) && Grows(s, t)
  {
    var t := s.(captures := s.captures + [image], daemon := Captured(|s.captures|));
    forall i: nat | Published(t, i) ensures Published(s, i) && Complete(t, i) {
      assert Complete(s, i);
    }
  }

  lemma RenameKeeps(s: State)
    requires Inv(s) && s.daemon.Writing? && s.daemon.done == |s.captures[s.daemon.k]|
    ensures var t := s.(snap := s.tmp, tmp := None, daemon := Asleep); FilesOk(t) && DaemonOk(t) && Grows(s, t)
  {
    var t := s.(snap := s.tmp, tmp := None, daemon := Asleep);
    var image := s.captures[s.daemon.k];
    assert image[..|image|] == image;
    forall i: nat | Published(t, i) ensures Complete(t, i) && i <= t.snap.value {
      assert s.tmp != Some(i) ==> Published(s, i);
    }
  }

  lemma DaemonStepKeeps(s: State, step: Step)
    requires Inv(s) && !IsReaderStep(step) && !step.Join?
    ensures FilesOk(Next(s, step)) && DaemonOk(Next(s, step)) && Grows(s, Next(s, step))
  {
    var t := Next(s, step);
    match step
    case OpenTmp =>
      if s.daemon.Captured? {
        OpenKeeps(s);
      }
    case WriteChunk(n) =>
      if s.daemon.Writing? {
        WriteKeeps(s, n);
      }
    case Rename(ok) =>
      if ok && s.daemon.Writing? && s.daemon.done == |s.captures[s.daemon.k]| {
        RenameKeeps(s);
      } else {
        SameFiles(s, t);
      }
    case Capture(image) =>
      if s.daemon.Asleep? && |image| == s.size {
        CaptureKeeps(s, image);
      } else {
        SameFiles(s, t);
      }
    case _ => SameFiles(s, t);
  }

  lemma SameFiles(s: State, t: State)
    requires Inv(s)
    requires t.size == s.size && t.captures == s.captures && t.inodes == s.inodes && t.tmp == s.tmp
    requires t.readers == s.readers && (t.snap == s.snap || t.snap == None)
    requires t.daemon == s.daemon || t.daemon.Dead? || t.daemon.Asleep?
    ensures FilesOk(t) && DaemonOk(t) && Grows(s, t)
  {
    forall i: nat | Published(t, i) ensures Complete(t, i) {
      assert Published(s, i) && Complete(s, i);
    }
    assert forall i: nat :: Published(t, i) ==> Published(s, i);
  }

  /** A reader that gets to the end of its file has one whole image, no older than any it delivered. */
  lemma FinishDelivers(s: State, r: Reader, step: Step)
    requires FilesOk(s) && ReaderOk(s, r) && PhaseOk(s, r.phase) && step.Finish?
    ensures ReaderOk(s, ReaderStep(s, r, step))
  {
    if r.phase.Reading? && |r.phase.got| >= |s.inodes[r.phase.from].data| {
      var i, j, got := r.phase.checked, r.phase.from, r.phase.got;
      assert Complete(s, i) && Complete(s, j);
      assert got == s.inodes[j].data && got[..s.size] == got;
      var d := Delivery(i, j, got);
      assert DeliveryOk(s, d);
      var after := r.delivered + [d];
      forall a, b | 0 <= a < b < |after| ensures after[a].from <= after[b].from {
        assert a < |r.delivered| && after[a] in r.delivered;
        if b < |r.delivered| {
          assert r.delivered[a].from <= r.delivered[b].from;
        }
      }
    }
  }

  lemma ReaderStepKeeps(s: State, r: Reader, step: Step)
    requires FilesOk(s) && ReaderOk(s, r) && PhaseOk(s, r.phase)
    ensures ReaderOk(s, ReaderStep(s, r, step)) && PhaseOk(s, ReaderStep(s, r, step).phase)
  {
    match step
    case Check(_) =>
      forall d | d in r.delivered ensures s.snap.Some? ==> d.from <= s.snap.value {
        assert DeliveryOk(s, d) && Published(s, d.from);
      }
    case ReadChunk(_, n) =>
      if r.phase.Reading? {
        var data, got := s.inodes[r.phase.from].data, r.phase.got;
        NextChunk(data, |got|, n);
      }
    case Finish(_) => FinishDelivers(s, r, step);
    case _ =>
  }

  lemma StepKeepsInv(s: State, step: Step)
    requires Inv(s)
    ensures Inv(Next(s, step)) && s.captures <= Next(s, step).captures
  {
    var t := Next(s, step);
    if IsReaderStep(step) || step.Join? {
      OtherReaders(s, t, step.r);
      if IsReaderStep(step) && step.r in s.readers {
        ReaderStepKeeps(s, s.readers[step.r], step);
        SameWorld(s, t, t.readers[step.r]);
      }
    } else {
      DaemonStepKeeps(s, step);
      ReadersUnmoved(s, t);
    }
  }

  lemma SameWorld(s: State, t: State, r: Reader)
    requires t == s.(readers := t.readers) && ReaderOk(s, r) && PhaseOk(s, r.phase)
    ensures ReaderOk(t, r) && PhaseOk(t, r.phase)
  {
    forall d | d in r.delivered ensures DeliveryOk(t, d) {
      assert DeliveryOk(s, d);
    }
  }

  lemma OtherReaders(s: State, t: State, me: nat)
    requires Inv(s) && t == s.(readers := t.readers)
    requires forall r :: r in t.readers && r != me ==> r in s.readers && t.readers[r] == s.readers[r]
    ensures FilesOk(t) && DaemonOk(t)
    ensures forall r :: r in t.readers && r != me ==> ReaderOk(t, t.readers[r]) && PhaseOk(t, t.readers[r].phase)
  {
    forall i: nat | Published(t, i) ensures Complete(t, i) {
      assert Published(s, i) && Complete(s, i);
    }
    assert forall i: nat :: Published(t, i) ==> Published(s, i);
    forall r | r in t.readers && r != me ensures ReaderOk(t, t.readers[r]) && PhaseOk(t, t.readers[r].phase) {
      SameWorld(s, t, s.readers[r]);
    }
  }

  // ---- Every interleaving ----------------------------------------------------------------

  ghost function Run(s: State, steps: seq<Step>): (t: State)
    requires Inv(s)
    ensures Inv(t)
    decreases |steps|
  {
    if steps == [] then s else
      StepKeepsInv(s, steps[0]);
      Run(Next(s, steps[0]), steps[1..])
  }

  /** Nothing has been captured, no file exists, nobody reads. */
  predicate Initial(s: State) {
    s.captures == [] && s.inodes == [] && s.tmp == None && s.snap == None && s.daemon == Dead && s.readers == map[]
  }

  /** A reader's successive deliveries are whole snapshots of captures that never go back. */
  ghost predicate WholeAndOrdered(captures: seq<Bytes>, images: seq<nat>, delivered: seq<Delivery>) {
    && |images| == |delivered|
    && (forall i :: 0 <= i < |images| ==> images[i] < |captures| && delivered[i].bytes == captures[images[i]])
    && (forall i, j :: 0 <= i < j < |images| ==> images[i] <= images[j])
  }

  /** The capture numbers behind some deliveries. */
  ghost function Images(t: State, ds: seq<Delivery>): (images: seq<nat>)
    requires forall d :: d in ds ==> DeliveryOk(t, d)
    ensures |images| == |ds|
    ensures forall i :: 0 <= i < |ds| ==> DeliveryOk(t, ds[i]) && images[i] == t.inodes[ds[i].from].image
  {
    if ds == [] then [] else
      assert DeliveryOk(t, ds[0]);
      [t.inodes[ds[0].from].image] + Images(t, ds[1..])
  }

  lemma PairInOrder(t: State, d: Delivery, e: Delivery)
    requires FilesOk(t) && DeliveryOk(t, d) && DeliveryOk(t, e) && d.from <= e.from
    ensures t.inodes[d.from].image <= t.inodes[e.from].image
  {
  }

  lemma DeliveriesOrdered(t: State, ds: seq<Delivery>)
    requires FilesOk(t) && InOrder(ds) && forall d :: d in ds ==> DeliveryOk(t, d)
    ensures WholeAndOrdered(t.captures, Images(t, ds), ds)
  {
    var images, captures := Images(t, ds), t.captures;
    forall i | 0 <= i < |images| ensures images[i] < |captures| && ds[i].bytes == captures[images[i]] {
      assert DeliveryOk(t, ds[i]);
    }
    forall i, j | 0 <= i < j < |images| ensures images[i] <= images[j] {
      PairInOrder(t, ds[i], ds[j]);
    }
  }

  /**
   Over every interleaving of daemon calls, kills, restarts, failed writes, unlinks and any number of
   readers: no read ends in a short file, and every reader's deliveries are whole captured snapshots that
   never go back in capture order.
   */
  lemma ReadsAreWholeAndOrdered(s: State, steps: seq<Step>, r: nat) returns (images: seq<nat>)
    requires Initial(s) && r in Run(s, steps).readers
    ensures var t := Run(s, steps);
            !t.readers[r].short && WholeAndOrdered(t.captures, images, t.readers[r].delivered)
  {
    var t := Run(s, steps);
    var reader := t.readers[r];
    assert ReaderOk(t, reader);
    DeliveriesOrdered(t, reader.delivered);
    images := Images(t, reader.delivered);
  }

  /** A delivery is never older than the file whose age was checked before it was opened. */
  lemma NoOlderThanChecked(s: State, steps: seq<Step>, r: nat, i: nat)
    requires Initial(s) && r in Run(s, steps).readers && i < |Run(s, steps).readers[r].delivered|
    ensures var t := Run(s, steps); var d := t.readers[r].delivered[i];
            Complete(t, d.checked) && Complete(t, d.from) && t.inodes[d.checked].image <= t.inodes[d.from].image
  {
    var t := Run(s, steps);
    assert ReaderOk(t, t.readers[r]);
    assert DeliveryOk(t, t.readers[r].delivered[i]);
  }

  // ---- What is published and delivered --------------------------------------------------------

  function Sum(ns: seq<nat>): nat {
    if ns == [] then 0 else ns[0] + Sum(ns[1..])
  }

  /** Calls that each take at most so many bytes. */
  function Reads(me: nat, ns: seq<nat>): seq<Step> {
    if ns == [] then [] else [ReadChunk(me, ns[0])] + Reads(me, ns[1..])
  }

  function Writes(ns: seq<nat>): seq<Step> {
    if ns == [] then [] else [WriteChunk(ns[0])] + Writes(ns[1..])
  }

  /** The same run, with the little a step asks for in place of the invariant. */
  function After(s: State, steps: seq<Step>): State
    decreases |steps|
  {
    if steps == [] || !WellFormed(s) || !AllPhasesOk(s) then s else After(Next(s, steps[0]), steps[1..])
  }

  lemma {:induction false} RunIsAfter(s: State, steps: seq<Step>)
    requires Inv(s)
    ensures Run(s, steps) == After(s, steps)
    decreases |steps|
  {
    if steps == [] {
    } else {
      StepKeepsInv(s, steps[0]);
      RunIsAfter(Next(s, steps[0]), steps[1..]);
    }
  }

  lemma {:induction false} AfterConcat(s: State, a: seq<Step>, b: seq<Step>)
    ensures After(s, a + b) == After(After(s, a), b)
    decreases |a|
  {
    if a == [] {
      assert a + b == b;
    } else if WellFormed(s) && AllPhasesOk(s) {
      assert (a + b)[0] == a[0] && (a + b)[1..] == a[1..] + b;
      AfterConcat(Next(s, a[0]), a[1..], b);
    }
  }

  lemma AfterThree(s: State, a: seq<Step>, b: seq<Step>, c: seq<Step>)
    ensures After(s, a + b + c) == After(After(After(s, a), b), c)
  {
    AfterConcat(s, a + b, c);
    AfterConcat(s, a, b);
  }

  lemma AfterOne(s: State, a: Step)
    requires WellFormed(s) && AllPhasesOk(s)
    ensures After(s, [a]) == Next(s, a)
  {
    assert [a][1..] == [];
  }

  /** The state with another reader in the place of `me`. */
  function WithReader(s: State, me: nat, r: Reader): State {
    s.(readers := s.readers[me := r])
  }

  lemma WithTwice(s: State, me: nat, a: Reader, b: Reader)
    ensures WithReader(WithReader(s, me, a), me, b) == WithReader(s, me, b)
    ensures me in s.readers ==> WithReader(s, me, s.readers[me]) == s
  {
    assert s.readers[me := a][me := b] == s.readers[me := b];
    if me in s.readers {
      assert s.readers[me := s.readers[me]] == s.readers;
    }
  }

  /** Reading or writing on from `done` bytes, perhaps beyond the end. */
  lemma TakeMore(data: Bytes, done: nat, n: nat)
    ensures |Take(data, done)| <= |data|
    ensures Take(data, done) + Take(data[|Take(data, done)|..], n) == Take(data, done + n)
  {
    if done <= |data| {
      NextChunk(data, done, n);
    }
  }

  /** The reader with these many bytes of the file it has open. */
  function AtByte(r: Reader, i: nat, data: Bytes, n: nat): Reader {
    r.(phase := Reading(i, i, Take(data, n)))
  }

  /** What a reader does on the way to a delivery. */
  function ReadSteps(me: nat, ns: seq<nat>): seq<Step> {
    [Check(me), Open(me)] + Reads(me, ns) + [Finish(me)]
  }

  /** The reader with one more delivery. */
  function Delivering(r: Reader, i: nat, image: Bytes): Reader {
    r.(phase := Resting, delivered := r.delivered + [Delivery(i, i, image)])
  }

  /** What a reader's own calls make of it while nothing else happens. */
  function ReaderAfter(s: State, r: Reader, steps: seq<Step>): (t: Reader)
    requires WellFormed(s) && PhaseOk(s, r.phase)
    ensures PhaseOk(s, t.phase)
    decreases |steps|
  {
    if steps == [] then r else ReaderAfter(s, ReaderStep(s, r, steps[0]), steps[1..])
  }

  lemma {:induction false} ReaderAfterConcat(s: State, r: Reader, a: seq<Step>, b: seq<Step>)
    requires WellFormed(s) && PhaseOk(s, r.phase)
    ensures ReaderAfter(s, r, a + b) == ReaderAfter(s, ReaderAfter(s, r, a), b)
    decreases |a|
  {
    if a == [] {
      assert a + b == b;
    } else {
      assert (a + b)[0] == a[0] && (a + b)[1..] == a[1..] + b;
      ReaderAfterConcat(s, ReaderStep(s, r, a[0]), a[1..], b);
    }
  }

  lemma {:induction false} OtherReadersDoNotMatter(s: State, t: State, r: Reader, steps: seq<Step>)
    requires WellFormed(s) && PhaseOk(s, r.phase) && t == s.(readers := t.readers)
    ensures ReaderAfter(t, r, steps) == ReaderAfter(s, r, steps)
    decreases |steps|
  {
    if steps == [] {
    } else {
      OtherReadersDoNotMatter(s, t, ReaderStep(s, r, steps[0]), steps[1..]);
    }
  }

  lemma {:induction false} ReaderAlone(s: State, me: nat, steps: seq<Step>)
    requires WellFormed(s) && AllPhasesOk(s) && me in s.readers
    requires forall i :: 0 <= i < |steps| ==> IsReaderStep(steps[i]) && steps[i].r == me
    ensures After(s, steps) == WithReader(s, me, ReaderAfter(s, s.readers[me], steps))
    decreases |steps|
  {
    var r := s.readers[me];
    if steps == [] {
      WithTwice(s, me, r, r);
    } else {
      var next := ReaderStep(s, r, steps[0]);
      var t := Next(s, steps[0]);
      assert t == WithReader(s, me, next);
      assert forall i :: 0 <= i < |steps[1..]| ==> steps[1..][i] == steps[i + 1];
      ReaderAlone(t, me, steps[1..]);
      OtherReadersDoNotMatter(s, t, next, steps[1..]);
      WithTwice(s, me, next, ReaderAfter(s, next, steps[1..]));
    }
  }

  lemma ReadNext(s: State, r: Reader, me: nat, n: nat, i: nat, data: Bytes, done: nat)
    requires WellFormed(s) && i < |s.inodes| && data == s.inodes[i].data
    ensures ReaderStep(s, AtByte(r, i, data, done), ReadChunk(me, n)) == AtByte(r, i, data, done + n)
  {
    TakeMore(data, done, n);
  }

  function ReadAll(s: State, r: Reader, me: nat, ns: seq<nat>): Reader
    requires WellFormed(s) && PhaseOk(s, r.phase)
    decreases |ns|
  {
    if ns == [] then r else ReadAll(s, ReaderStep(s, r, ReadChunk(me, ns[0])), me, ns[1..])
  }

  lemma {:induction false} ReadAllIsAfter(s: State, r: Reader, me: nat, ns: seq<nat>)
    requires WellFormed(s) && PhaseOk(s, r.phase)
    ensures ReaderAfter(s, r, Reads(me, ns)) == ReadAll(s, r, me, ns)
    decreases |ns|
  {
    if ns == [] {
    } else {
      assert Reads(me, ns)[0] == ReadChunk(me, ns[0]) && Reads(me, ns)[1..] == Reads(me, ns[1..]);
      ReadAllIsAfter(s, ReaderStep(s, r, ReadChunk(me, ns[0])), me, ns[1..]);
    }
  }

  lemma ReadFirst(s: State, r: Reader, me: nat, ns: seq<nat>, next: Reader)
    requires WellFormed(s) && PhaseOk(s, r.phase) && ns != [] && next == ReaderStep(s, r, ReadChunk(me, ns[0]))
    ensures PhaseOk(s, next.phase) && ReadAll(s, r, me, ns) == ReadAll(s, next, me, ns[1..])
  {
  }

  lemma {:induction false} ReadsGet(
    s: State, r: Reader, me: nat, ns: seq<nat>, i: nat, data: Bytes, done: nat)
    requires WellFormed(s) && i < |s.inodes| && data == s.inodes[i].data
    ensures ReadAll(s, AtByte(r, i, data, done), me, ns) == AtByte(r, i, data, done + Sum(ns))
    decreases |ns|
  {
    if ns == [] {
    } else {
      ReadNext(s, r, me, ns[0], i, data, done);
      ReadFirst(s, AtByte(r, i, data, done), me, ns, AtByte(r, i, data, done + ns[0]));
      ReadsGet(s, r, me, ns[1..], i, data, done + ns[0]);
      assert done + Sum(ns) == done + ns[0] + Sum(ns[1..]);
    }
  }

  lemma OneReaderStep(s: State, r: Reader, step: Step)
    requires WellFormed(s) && PhaseOk(s, r.phase)
    ensures ReaderAfter(s, r, [step]) == ReaderStep(s, r, step)
  {
    assert [step][1..] == [];
  }

  lemma CheckAndOpen(s: State, r: Reader, me: nat)
    requires WellFormed(s) && r.phase == Resting && s.snap.Some?
    requires 0 <= s.now - s.inodes[s.snap.value].mtime <= 1999
    ensures var i := s.snap.value;
            ReaderAfter(s, r, [Check(me), Open(me)]) == AtByte(r, i, s.inodes[i].data, 0)
  {
    var checked := ReaderStep(s, r, Check(me));
    assert [Check(me)] + [Open(me)] == [Check(me), Open(me)];
    ReaderAfterConcat(s, r, [Check(me)], [Open(me)]);
    OneReaderStep(s, r, Check(me));
    OneReaderStep(s, checked, Open(me));
  }

  lemma FinishWhole(s: State, r: Reader, me: nat, i: nat, n: nat)
    requires WellFormed(s) && i < |s.inodes| && |s.inodes[i].data| == s.size <= n
    ensures ReaderAfter(s, AtByte(r, i, s.inodes[i].data, n), [Finish(me)]) == Delivering(r, i, s.inodes[i].data)
  {
    OneReaderStep(s, AtByte(r, i, s.inodes[i].data, n), Finish(me));
    assert s.inodes[i].data[..s.size] == s.inodes[i].data;
  }

  /** Whatever the world around it: a resting reader that finds a whole fresh file delivers it. */
  lemma ReadsWhole(s: State, r: Reader, me: nat, ns: seq<nat>)
    requires WellFormed(s) && r.phase == Resting && s.snap.Some? && |s.inodes[s.snap.value].data| == s.size
    requires 0 <= s.now - s.inodes[s.snap.value].mtime <= 1999 && Sum(ns) >= s.size
    ensures ReaderAfter(s, r, ReadSteps(me, ns)) == Delivering(r, s.snap.value, s.inodes[s.snap.value].data)
  {
    var i := s.snap.value;
    var data := s.inodes[i].data;
    CheckAndOpen(s, r, me);
    ReadsAfter(s, r, me, ns, i, data);
    FinishWhole(s, r, me, i, 0 + Sum(ns));
    ReaderAfterThree(s, r, [Check(me), Open(me)], Reads(me, ns), [Finish(me)]);
  }

  lemma ReadsAfter(s: State, r: Reader, me: nat, ns: seq<nat>, i: nat, data: Bytes)
    requires WellFormed(s) && i < |s.inodes| && data == s.inodes[i].data
    ensures ReaderAfter(s, AtByte(r, i, data, 0), Reads(me, ns)) == AtByte(r, i, data, 0 + Sum(ns))
  {
    ReadsGet(s, r, me, ns, i, data, 0);
    ReadAllIsAfter(s, AtByte(r, i, data, 0), me, ns);
  }

  lemma ReaderAfterThree(s: State, r: Reader, a: seq<Step>, b: seq<Step>, c: seq<Step>)
    requires WellFormed(s) && PhaseOk(s, r.phase)
    ensures ReaderAfter(s, r, a + b + c) == ReaderAfter(s, ReaderAfter(s, ReaderAfter(s, r, a), b), c)
  {
    ReaderAfterConcat(s, r, a, b);
    ReaderAfterConcat(s, r, a + b, c);
  }

  lemma {:induction false} ReadsAreMine(me: nat, ns: seq<nat>)
    ensures forall i :: 0 <= i < |Reads(me, ns)| ==> IsReaderStep(Reads(me, ns)[i]) && Reads(me, ns)[i].r == me
  {
    if ns == [] {
    } else {
      ReadsAreMine(me, ns[1..]);
    }
  }

  lemma SnapComplete(s: State)
    requires Inv(s) && s.snap.Some?
    ensures s.snap.value < |s.inodes| && s.inodes[s.snap.value].image < |s.captures|
    ensures s.inodes[s.snap.value].data == s.captures[s.inodes[s.snap.value].image]
    ensures |s.inodes[s.snap.value].data| == s.size
  {
    assert Complete(s, s.snap.value);
  }

  /**
   A resting reader that finds a file of an age from 0 to 1999 ms, and reads to its end in chunks of any
   size, delivers the capture in it: one more delivery, and nothing else changes.
   */
  lemma FreshIsDelivered(s: State, me: nat, ns: seq<nat>)
    requires Inv(s) && me in s.readers && s.readers[me].phase == Resting && s.snap.Some?
    requires 0 <= s.now - s.inodes[s.snap.value].mtime <= 1999 && Sum(ns) >= s.size
    ensures var i := s.snap.value;
            s.inodes[i].image < |s.captures| &&
            Run(s, ReadSteps(me, ns)) ==
            WithReader(s, me, Delivering(s.readers[me], i, s.captures[s.inodes[i].image]))
  {
    SnapComplete(s);
    ReadsWhole(s, s.readers[me], me, ns);
    ReadsAreMine(me, ns);
    ReaderAlone(s, me, ReadSteps(me, ns));
    RunIsAfter(s, ReadSteps(me, ns));
  }

  /** A file of 2000 ms or more, one from the future, none, or one that was unlinked is not even opened. */
  lemma StaleIsRefused(s: State, me: nat)
    requires Inv(s) && me in s.readers && s.readers[me].phase == Resting
    ensures s.snap.None? ==> Next(s, Check(me)) == s
    ensures s.snap.Some? && s.now - s.inodes[s.snap.value].mtime >= 2000 ==> Next(s, Check(me)) == s
    ensures s.snap.Some? && s.now < s.inodes[s.snap.value].mtime ==> Next(s, Check(me)) == s
    ensures Inv(Next(s, UnlinkSnap)) && Next(Next(s, UnlinkSnap), Check(me)) == Next(s, UnlinkSnap)
  {
    StepKeepsInv(s, UnlinkSnap);
    assert s.readers[me := s.readers[me]] == s.readers;
  }

  /** What the daemon does to publish an image. */
  function PublishSteps(image: Bytes, ns: seq<nat>): seq<Step> {
    [Capture(image), OpenTmp] + Writes(ns) + [Rename(true)]
  }

  /** The state in which the daemon has written these many bytes of capture `k` into the tmp inode. */
  function Put(s: State, t: nat, k: nat, image: Bytes, done: nat): State
    requires t < |s.inodes|
  {
    var data := Take(image, done);
    s.(inodes := s.inodes[t := Inode(k, data, s.now)], daemon := Writing(k, |data|))
  }

  /** The tmp file can take bytes of capture `k`. */
  predicate Fillable(s: State, t: nat, k: nat, image: Bytes) {
    WellFormed(s) && AllPhasesOk(s) && s.tmp == Some(t) && k < |s.captures| && image == s.captures[k]
  }

  lemma PutFillable(s: State, t: nat, k: nat, image: Bytes, done: nat)
    requires Fillable(s, t, k, image)
    ensures Fillable(Put(s, t, k, image, done), t, k, image)
  {
  }

  lemma WriteNext(s: State, n: nat, t: nat, k: nat, image: Bytes, done: nat)
    requires Fillable(s, t, k, image) && Fillable(Put(s, t, k, image, done), t, k, image)
    ensures Next(Put(s, t, k, image, done), WriteChunk(n)) == Put(s, t, k, image, done + n)
  {
    var u := Put(s, t, k, image, done);
    TakeMore(image, done, n);
    assert u.inodes[t := Put(s, t, k, image, done + n).inodes[t]] == Put(s, t, k, image, done + n).inodes;
    assert image[|Take(image, done)|..] == s.captures[k][|Take(image, done)|..];
  }

  function WriteAll(s: State, ns: seq<nat>): State
    decreases |ns|
  {
    if ns == [] || !WellFormed(s) || !AllPhasesOk(s) then s else WriteAll(Next(s, WriteChunk(ns[0])), ns[1..])
  }

  lemma {:induction false} WriteAllIsAfter(s: State, ns: seq<nat>)
    ensures After(s, Writes(ns)) == WriteAll(s, ns)
    decreases |ns|
  {
    if ns == [] || !WellFormed(s) || !AllPhasesOk(s) {
    } else {
      assert Writes(ns)[0] == WriteChunk(ns[0]) && Writes(ns)[1..] == Writes(ns[1..]);
      WriteAllIsAfter(Next(s, WriteChunk(ns[0])), ns[1..]);
    }
  }

  lemma WriteFirst(u: State, ns: seq<nat>, v: State)
    requires ns != [] && WellFormed(u) && AllPhasesOk(u) && v == Next(u, WriteChunk(ns[0]))
    ensures WriteAll(u, ns) == WriteAll(v, ns[1..])
  {
  }

  lemma {:induction false} WritesPut(s: State, ns: seq<nat>, t: nat, k: nat, image: Bytes, done: nat)
    requires Fillable(s, t, k, image)
    ensures WriteAll(Put(s, t, k, image, done), ns) == Put(s, t, k, image, done + Sum(ns))
    decreases |ns|
  {
    if ns == [] {
    } else {
      PutFillable(s, t, k, image, done);
      WriteNext(s, ns[0], t, k, image, done);
      WriteFirst(Put(s, t, k, image, done), ns, Put(s, t, k, image, done + ns[0]));
      WritesPut(s, ns[1..], t, k, image, done + ns[0]);
      assert done + Sum(ns) == done + ns[0] + Sum(ns[1..]);
    }
  }

  lemma OpenForImage(s: State, image: Bytes)
    requires WellFormed(s) && AllPhasesOk(s) && s.daemon.Asleep? && |image| == s.size
    ensures var t := After(s, [Capture(image), OpenTmp]);
            t == s.(captures := s.captures + [image], inodes := t.inodes, tmp := t.tmp, daemon := t.daemon) &&
            t.tmp.Some? && Fillable(t, t.tmp.value, |s.captures|, image) &&
            t == Put(t, t.tmp.value, |s.captures|, image, 0)
  {
    var c := Next(s, Capture(image));
    assert [Capture(image)] + [OpenTmp] == [Capture(image), OpenTmp];
    AfterConcat(s, [Capture(image)], [OpenTmp]);
    AfterOne(s, Capture(image));
    AfterOne(c, OpenTmp);
    var t := Next(c, OpenTmp);
    assert Take(image, 0) == [];
    assert t.inodes[t.tmp.value := t.inodes[t.tmp.value]] == t.inodes;
  }

  lemma RenameWhole(s: State, t: nat, k: nat, image: Bytes, n: nat)
    requires Fillable(s, t, k, image) && Fillable(Put(s, t, k, image, n), t, k, image) && n >= |image|
    ensures After(Put(s, t, k, image, n), [Rename(true)]) ==
            Put(s, t, k, image, n).(snap := Some(t), tmp := None, daemon := Asleep)
    ensures Put(s, t, k, image, n).inodes[t] == Inode(k, image, s.now)
  {
    AfterOne(Put(s, t, k, image, n), Rename(true));
  }

  /**
   A daemon that captures an image and writes it out in chunks of any size publishes it: snap.bin is then
   this image, written now, and the readers are where they were.
   */
  lemma CaptureIsPublished(s: State, image: Bytes, ns: seq<nat>)
    requires Inv(s) && s.daemon.Asleep? && |image| == s.size && Sum(ns) >= s.size
    ensures var t := Run(s, PublishSteps(image, ns));
            t.captures == s.captures + [image] && t.daemon == Asleep && t.snap.Some? &&
            t.snap.value < |t.inodes| && t.inodes[t.snap.value] == Inode(|s.captures|, image, s.now) &&
            t.now == s.now && t.size == s.size && t.readers == s.readers
  {
    RunIsAfter(s, PublishSteps(image, ns));
    Publishes(s, image, ns);
  }

  lemma WrittenWhole(a: State, ns: seq<nat>, t: nat, k: nat, image: Bytes)
    requires Fillable(a, t, k, image) && a == Put(a, t, k, image, 0)
    ensures After(a, Writes(ns)) == Put(a, t, k, image, 0 + Sum(ns))
  {
    WritesPut(a, ns, t, k, image, 0);
    WriteAllIsAfter(a, ns);
  }

  lemma Publishes(s: State, image: Bytes, ns: seq<nat>)
    requires WellFormed(s) && AllPhasesOk(s) && s.daemon.Asleep? && |image| == s.size && Sum(ns) >= s.size
    ensures var t := After(s, PublishSteps(image, ns));
            t.captures == s.captures + [image] && t.daemon == Asleep && t.snap.Some? &&
            t.snap.value < |t.inodes| && t.inodes[t.snap.value] == Inode(|s.captures|, image, s.now) &&
            t.now == s.now && t.size == s.size && t.readers == s.readers
  {
    var first := [Capture(image), OpenTmp];
    OpenForImage(s, image);
    var a := After(s, first);
    var t, k := a.tmp.value, |s.captures|;
    WrittenWhole(a, ns, t, k, image);
    PutFillable(a, t, k, image, 0 + Sum(ns));
    RenameWhole(a, t, k, image, 0 + Sum(ns));
    AfterThree(s, first, Writes(ns), [Rename(true)]);
  }

  /** From the daemon to a reader: what is captured is what is delivered, within two seconds of the writing. */
  lemma CapturedIsDelivered(s: State, image: Bytes, ns: seq<nat>, wait: nat, me: nat, ms: seq<nat>)
    requires Inv(s) && s.daemon.Asleep? && |image| == s.size && Sum(ns) >= s.size && Sum(ms) >= s.size
    requires wait <= 1999 && me in s.readers && s.readers[me].phase == Resting
    ensures var t := Run(s, PublishSteps(image, ns) + [Clock(s.now + wait)] + ReadSteps(me, ms));
            me in t.readers && |t.readers[me].delivered| == |s.readers[me].delivered| + 1 &&
            t.readers[me].delivered[|s.readers[me].delivered|].bytes == image
  {
    var first, clock := PublishSteps(image, ns), [Clock(s.now + wait)];
    RunIsAfter(s, first + clock + ReadSteps(me, ms));
    AfterThree(s, first, clock, ReadSteps(me, ms));
    CaptureIsPublished(s, image, ns);
    RunIsAfter(s, first);
    var a := Run(s, first);
    AfterOne(a, Clock(s.now + wait));
    StepKeepsInv(a, Clock(s.now + wait));
    var b := After(a, clock);
    FreshIsDelivered(b, me, ms);
    RunIsAfter(b, ReadSteps(me, ms));
  }

  /** A reader that joins starts at rest with no delivery; one that reads already goes on. */
  lemma ReaderJoins(s: State, me: nat)
    requires Inv(s)
    ensures me !in s.readers ==>
              Inv(Next(s, Join(me))) && me in Next(s, Join(me)).readers &&
              Next(s, Join(me)).readers[me] == Reader(Resting, [], false)
    ensures me in s.readers ==> Next(s, Join(me)) == s
    ensures forall r :: r in s.readers && r != me ==>
              r in Next(s, Join(me)).readers && Next(s, Join(me)).readers[r] == s.readers[r]
  {
    StepKeepsInv(s, Join(me));
  }

  /** A failed write or rename, or a kill and a restart, leaves the files as they are and the daemon ready. */
  lemma FailuresRecover(s: State)
    requires Inv(s)
    ensures s.daemon.Captured? || s.daemon.Writing? ==> Next(s, FailWrite) == s.(daemon := Asleep)
    ensures s.daemon.Writing? && s.daemon.done == s.size ==> Next(s, Rename(false)) == s.(daemon := Asleep)
    ensures Inv(Next(s, Kill)) && Next(Next(s, Kill), StartDaemon) == s.(daemon := Asleep)
  {
    StepKeepsInv(s, Kill);
  }
}
