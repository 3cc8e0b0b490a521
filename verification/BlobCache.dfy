/**
  The blob directory as a write-back cache in front of an object store, as a
  machine of atomic file-system and store steps. Writers, deleters, readers and
  the one uploader thread interleave freely, and a crash may fall anywhere: it
  takes every thread and leaves every file and every object.
 */
module BlobCache {
  import opened Basics

  type Key = nat
  type Bytes = seq<nat>

  /** A transfer: staging to `<key>.tmp`, entry queued, renamed, its rename failed; or streaming to the store. */
  datatype Writer = Staging | Queued | Published | Failing | Direct(bytes: Bytes)

  /**
    All there is of one key: its file in the blob directory, its staging file,
    its two queue entries with their inodes, its object in the store and the
    transfer under way. Then its history: whether it was ever used, what it held
    when it was published, whether the commit returned 0, and whether it was
    deleted or swept.
   */
  datatype Slot = Slot(
    blob: Option<Bytes>, staged: Option<Bytes>, put: Option<nat>, del: Option<nat>, remote: Option<Bytes>,
    writer: Option<Writer>,
    begun: bool, value: Option<Bytes>, acked: bool, gone: bool)

  const BLANK := Slot(None, None, None, None, None, None, false, None, false, false)

  /** The uploader thread: draining the queue, evicting, or sweeping the store. */
  datatype Uploader =
    | Idle
    | Picked(key: Key, before: nat)
    | Discarding(key: Key)
    | Opening(key: Key, before: nat)
    | LookingStaged(key: Key, before: nat)
    | OpeningAgain(key: Key, before: nat)
    | Sending(key: Key, before: nat, bytes: Bytes)
    | Sent(key: Key, before: nat)
    | NothingToSend(key: Key, before: nat)
    | Removing(key: Key)
    | Deleting(key: Key, before: nat)
    | Deleted(key: Key, before: nat)
    | RemovingDel(key: Key)
    | Evicting(found: set<Key>)
    | Evict(key: Key, found: set<Key>)
    | Sweeping(key: Key)
    | Swept(key: Key)

  /** A read. `known`: the blob had been published when the read began. */
  datatype Reader =
    | Missed(key: Key, known: bool)
    | Asking(key: Key, known: bool)
    | Fetched(key: Key, known: bool, bytes: Bytes)
    | Reopening(key: Key, known: bool)
    | Served(key: Key, known: bool, bytes: Bytes)
    | NotFound(key: Key, known: bool)

  datatype Phase = Down | Clearing | Adopting | Up

  /** `adopted`: the file `.store` names this store. */
  datatype State = State(
    at: map<Key, Slot>, adopted: bool, inode: nat, phase: Phase, uploader: Uploader, readers: map<nat, Reader>)

  function At(s: State, k: Key): (a: Slot) {
    if k in s.at then s.at[k] else BLANK
  }

  // ----- the steps

  datatype WriterAct = Begin | BeginDirect | Chunk(bytes: Bytes) | Abort | QueuePut | Publish | PublishFails | DropPut
                     | DropDel | CommitDirect | DirectFails(landed: bool)

  /** What a transfer does to its key; `ino` is an unused inode. */
  ghost predicate WriterMove(a: Slot, w: WriterAct, ino: nat, b: Slot) {
    match w
    case Begin => !a.begun && b == a.(staged := Some([]), writer := Some(Staging), begun := true)
    case BeginDirect => !a.begun && b == a.(writer := Some(Direct([])), begun := true)
    case Chunk(more) =>
      || (a.writer == Some(Staging) && a.staged.Some? && b == a.(staged := Some(a.staged.value + more)))
      || (a.writer.Some? && a.writer.value.Direct? && b == a.(writer := Some(Direct(a.writer.value.bytes + more))))
    case Abort =>
      || (a.writer == Some(Staging) && b == a.(staged := None, writer := None))
      || (a.writer.Some? && a.writer.value.Direct? && b == a.(writer := None))
    case QueuePut => a.writer == Some(Staging) && b == a.(put := Some(ino), writer := Some(Queued))
    case Publish => a.writer == Some(Queued) && b == a.(blob := a.staged, staged := None, writer := Some(Published), value := a.staged)
    case PublishFails => a.writer == Some(Queued) && b == a.(staged := None, writer := Some(Failing))
    case DropPut => a.writer == Some(Failing) && b == a.(put := None, writer := None)
    case DropDel => a.writer == Some(Published) && b == a.(del := None, writer := None, acked := true)
    case CommitDirect =>
      && a.writer.Some? && a.writer.value.Direct?
      && b == a.(remote := Some(a.writer.value.bytes), writer := None, value := Some(a.writer.value.bytes), acked := true)
    case DirectFails(landed) =>
      && a.writer.Some? && a.writer.value.Direct?
      && b == a.(remote := if landed then Some(a.writer.value.bytes) else a.remote, writer := None)
  }

  datatype DeleteAct = QueueDel | ForgetPut | Unlink

  /** What a delete does; a key is deleted once its own transfer is over. */
  ghost predicate DeleteMove(a: Slot, d: DeleteAct, ino: nat, b: Slot) {
    && a.begun && a.writer.None?
    && match d
       case QueueDel => b == a.(del := Some(ino), gone := true)
       case ForgetPut => a.gone && b == a.(put := None)
       case Unlink => a.gone && b == a.(blob := None)
  }

  datatype SendAct = PickPut | CheckDel | DropEntry | Open | OpenFails | CheckStaged | OpenAgain
                   | SendOk | SendFails(landed: bool, again: bool) | StatAfter | UnlinkPut

  /** The uploader at the put entry of key `k`. */
  ghost predicate SendMove(u: Uploader, k: Key, a: Slot, act: SendAct, v: Uploader, b: Slot) {
    match act
    case PickPut => u == Idle && a.put.Some? && b == a && v == Picked(k, a.put.value)
    case CheckDel => u.Picked? && u.key == k && b == a && v == if a.del.Some? then Discarding(k) else Opening(k, u.before)
    case DropEntry => u == Discarding(k) && b == a.(put := None) && v == Idle
    case Open => u.Opening? && u.key == k && b == a && v == if a.blob.Some? then Sending(k, u.before, a.blob.value) else LookingStaged(k, u.before)
    case OpenFails => (u.Opening? || u.OpeningAgain?) && u.key == k && b == a && v == Idle
    case CheckStaged => u.LookingStaged? && u.key == k && b == a && v == if a.staged.Some? then Idle else OpeningAgain(k, u.before)
    case OpenAgain => u.OpeningAgain? && u.key == k && b == a && v == if a.blob.Some? then Sending(k, u.before, a.blob.value) else NothingToSend(k, u.before)
    case SendOk => u.Sending? && u.key == k && b == a.(remote := Some(u.bytes)) && v == Sent(k, u.before)
    case SendFails(landed, again) =>
      && u.Sending? && u.key == k && b == a.(remote := if landed then Some(u.bytes) else a.remote)
      && v == if again then Opening(k, u.before) else Idle
    case StatAfter => (u.Sent? || u.NothingToSend?) && u.key == k && b == a && v == if a.put == Some(u.before) then Removing(k) else Idle
    case UnlinkPut => u == Removing(k) && b == a.(put := None) && v == Idle
  }

  datatype RemoveAct = PickDel | StoreDel | StoreDelFails(landed: bool) | StatDel | UnlinkDel
                     | SweepPick | SweepStore | SweepFails(landed: bool) | SweepLocal

  /** The uploader at the del entry of key `k`, or sweeping it from the store. */
  ghost predicate RemoveMove(u: Uploader, k: Key, a: Slot, act: RemoveAct, v: Uploader, b: Slot) {
    match act
    case PickDel => u == Idle && a.del.Some? && b == a && v == Deleting(k, a.del.value)
    case StoreDel => u.Deleting? && u.key == k && b == a.(remote := None) && v == Deleted(k, u.before)
    case StoreDelFails(landed) => u.Deleting? && u.key == k && b == a.(remote := if landed then None else a.remote) && v == Idle
    case StatDel => u.Deleted? && u.key == k && b == a && v == if a.del == Some(u.before) then RemovingDel(k) else Idle
    case UnlinkDel => u == RemovingDel(k) && b == a.(del := None) && v == Idle
    case SweepPick => u == Idle && a.remote.Some? && a.put.None? && b == a.(gone := true) && v == Sweeping(k)
    case SweepStore => u == Sweeping(k) && b == a.(remote := None) && v == Swept(k)
    case SweepFails(landed) => u == Sweeping(k) && b == a.(remote := if landed then None else a.remote) && v == Idle
    case SweepLocal => u == Swept(k) && b == a.(blob := None) && v == Idle
  }

  datatype EvictAct = Scan | Find | Recheck | UnlinkBlob | EndTend

  /** The uploader bringing the blob directory within its budget. */
  ghost predicate EvictMove(u: Uploader, k: Key, a: Slot, act: EvictAct, v: Uploader, b: Slot) {
    match act
    case Scan => u == Idle && b == a && v == Evicting({})
    case Find => u.Evicting? && a.blob.Some? && a.put.None? && b == a && v == Evicting(u.found + {k})
    case Recheck => u.Evicting? && k in u.found && a.put.None? && b == a && v == Evict(k, u.found)
    case UnlinkBlob => u.Evict? && u.key == k && b == a.(blob := None) && v == Evicting(u.found)
    case EndTend => u.Evicting? && b == a && v == Idle
  }

  datatype ReadAct = AskQueue | Fetch | Keep | ServeDirect | LookAgain

  /** How a read of a key goes on; it may also stop, with an error, wherever it is. */
  ghost predicate ReadMove(g: Reader, a: Slot, act: ReadAct, h: Reader, b: Slot) {
    match act
    case AskQueue => g.Missed? && b == a && h == if a.put.Some? then NotFound(g.key, g.known) else Asking(g.key, g.known)
    case Fetch => g.Asking? && b == a && h == if a.remote.Some? then Fetched(g.key, g.known, a.remote.value) else NotFound(g.key, g.known)
    case Keep => g.Fetched? && b == a.(blob := Some(g.bytes)) && h == Reopening(g.key, g.known)
    case ServeDirect => g.Fetched? && b == a && h == Served(g.key, g.known, g.bytes)
    case LookAgain => g.Reopening? && a.blob.Some? && b == a && h == Served(g.key, g.known, a.blob.value)
  }

  /** The first look a read takes. */
  function Looked(k: Key, a: Slot): (g: Reader) {
    if a.blob.Some? then Served(k, a.value.Some?, a.blob.value) else Missed(k, a.value.Some?)
  }

  datatype Step =
    | Write(key: Key, w: WriterAct)
    | Delete(key: Key, d: DeleteAct)
    | Send(key: Key, u: SendAct)
    | Remove(key: Key, x: RemoveAct)
    | Evicts(key: Key, e: EvictAct)
    | Look(r: nat, key: Key)
    | Read(r: nat, g: ReadAct)
    | EndRead(r: nat)
    | Crash
    | Start
    | ClearOne(key: Key)
    | ClearDone
    | AdoptOne(key: Key)
    | AdoptDone(marked: bool)

  ghost predicate Next(s: State, step: Step, t: State) {
    match step
    case Write(k, w) => s.phase == Up && WriterMove(At(s, k), w, s.inode, At(t, k)) && t == s.(at := s.at[k := At(t, k)], inode := s.inode + 1)
    case Delete(k, d) => s.phase == Up && DeleteMove(At(s, k), d, s.inode, At(t, k)) && t == s.(at := s.at[k := At(t, k)], inode := s.inode + 1)
    case Send(k, u) =>
      && s.phase == Up && SendMove(s.uploader, k, At(s, k), u, t.uploader, At(t, k))
      && t == s.(at := s.at[k := At(t, k)], uploader := t.uploader)
    case Remove(k, x) =>
      && s.phase == Up && RemoveMove(s.uploader, k, At(s, k), x, t.uploader, At(t, k))
      && t == s.(at := s.at[k := At(t, k)], uploader := t.uploader)
    case Evicts(k, e) =>
      && s.phase == Up && EvictMove(s.uploader, k, At(s, k), e, t.uploader, At(t, k))
      && t == s.(at := s.at[k := At(t, k)], uploader := t.uploader)
    case Look(r, k) => s.phase == Up && r !in s.readers && t == s.(readers := s.readers[r := Looked(k, At(s, k))])
    case Read(r, g) =>
      && s.phase == Up && r in s.readers && r in t.readers
      && var k := s.readers[r].key;
      && ReadMove(s.readers[r], At(s, k), g, t.readers[r], At(t, k))
      && t == s.(at := s.at[k := At(t, k)], readers := s.readers[r := t.readers[r]])
    case EndRead(r) => s.phase == Up && t == s.(readers := s.readers - {r})
    case Crash => t == s.(at := map k | k in s.at :: s.at[k].(writer := None), phase := Down, uploader := Idle, readers := map[])
    case Start => s.phase == Down && t == s.(phase := Clearing)
    case ClearOne(k) => s.phase == Clearing && t == s.(at := s.at[k := At(s, k).(staged := None)])
    case ClearDone => s.phase == Clearing && t == s.(phase := if s.adopted then Up else Adopting)
    case AdoptOne(k) =>
      && s.phase == Adopting && At(s, k).blob.Some?
      && t == s.(at := s.at[k := At(s, k).(put := Some(s.inode))], inode := s.inode + 1)
    case AdoptDone(marked) =>
      s.phase == Adopting && (forall k :: At(s, k).blob.Some? ==> At(s, k).put.Some?) && t == s.(phase := Up, adopted := marked)
  }

  /** A blob directory given a store it has not had before, with whatever an earlier life left in it. */
  ghost predicate InitSlot(a: Slot) {
    && a.writer.None? && a.value == a.blob && a.acked == a.blob.Some? && a.gone == a.del.Some?
    && (a.blob.Some? || a.staged.Some? || a.put.Some? || a.del.Some? || a.remote.Some? ==> a.begun)
    && (a.blob.Some? && a.remote.Some? ==> a.remote == a.blob)
  }

  ghost predicate Init(s: State) {
    && s.phase == Down && !s.adopted && s.uploader == Idle && s.readers == map[]
    && forall k :: InitSlot(At(s, k))
  }

  ghost predicate Goes(run: seq<State>, steps: seq<Step>, i: nat)
    requires i < |steps| && |run| == |steps| + 1
  {
    Next(run[i], steps[i], run[i + 1])
  }

  /** A run: from a first state, each state the next one's by the step between them. */
  ghost predicate IsRun(run: seq<State>, steps: seq<Step>) {
    && |run| == |steps| + 1 && Init(run[0])
    && forall i :: 0 <= i < |steps| ==> Goes(run, steps, i)
  }

  // ----- what every reachable state keeps

  /** A transfer that may still publish its key. */
  ghost predicate Pending(a: Slot) {
    a.writer.Some? && !a.writer.value.Published? && !a.writer.value.Failing?
  }

  /** A published blob that nobody deleted or swept. */
  ghost predicate Owed(a: Slot) {
    a.value.Some? && !a.gone
  }

  /** In the store, or in the directory with its put entry queued (or, before adoption is done, about to be). */
  ghost predicate Kept(a: Slot, armed: bool) {
    a.remote == a.value || (a.blob == a.value && (a.put.Some? || !armed))
  }

  ghost predicate SlotOk(a: Slot, armed: bool) {
    && (Owed(a) ==> Kept(a, armed))
    && (Owed(a) && a.put.Some? ==> a.blob.Some?)
    && (!a.begun ==> a == BLANK)
    && (Pending(a) ==> a.blob.None? && a.remote.None? && a.value.None? && !a.gone && a.del.None?)
    && (a.writer == Some(Failing) ==> a.blob.None? && a.remote.None? && a.value.None?)
    && (a.writer == Some(Staging) ==> a.staged.Some? && a.put.None?)
    && (a.writer == Some(Queued) ==> a.staged.Some? && a.put.Some?)
    && (a.writer == Some(Published) ==> a.value.Some?)
    && (a.writer.Some? && a.writer.value.Direct? ==> a.put.None?)
    && (a.blob.Some? && a.value.Some? ==> a.blob == a.value)
    && (a.remote.Some? && a.value.Some? ==> a.remote == a.value)
    && (a.del.Some? ==> a.gone)
    && (a.acked ==> a.value.Some?)
  }

  /** Used, and no transfer of it can publish any more. */
  ghost predicate Settled(a: Slot) {
    a.begun && !Pending(a)
  }

  /** The uploader is at an entry that was queued, so past staging, and that is still there if the blob is owed. */
  ghost predicate AtEntry(a: Slot) {
    && a.begun && !(Pending(a) && a.writer != Some(Queued))
    && (Owed(a) ==> a.put.Some?)
  }

  /** What the uploader, where it is, relies on about key `k`. */
  ghost predicate UploaderRelies(u: Uploader, k: Key, a: Slot) {
    match u
    case Idle => true
    case Picked(x, _) => k == x ==> AtEntry(a)
    case Discarding(x) => k == x ==> a.gone
    case Opening(x, _) => k == x ==> AtEntry(a)
    case LookingStaged(x, _) => k == x ==> AtEntry(a)
    case OpeningAgain(x, _) => k == x ==> AtEntry(a) && Settled(a)
    case Sending(x, _, bytes) => k == x ==> AtEntry(a) && Settled(a) && a.writer != Some(Failing) && (a.value.Some? ==> a.value == Some(bytes))
    case Sent(x, _) => k == x ==> Settled(a) && (Owed(a) ==> a.remote.Some?)
    case NothingToSend(x, _) => k == x ==> Settled(a) && !Owed(a)
    case Removing(x) => k == x ==> Settled(a) && (Owed(a) ==> a.remote.Some?)
    case Deleting(x, _) => k == x ==> a.gone
    case Deleted(x, _) => k == x ==> a.gone
    case RemovingDel(x) => k == x ==> a.gone
    case Evicting(found) => k in found ==> Settled(a)
    case Evict(x, found) => (k == x ==> Settled(a) && (a.put.None? || a.gone)) && (k in found ==> Settled(a))
    case Sweeping(x) => k == x ==> a.gone
    case Swept(x) => k == x ==> a.gone
  }

  /** What a read relies on about its key. */
  ghost predicate ReaderRelies(g: Reader, a: Slot) {
    && (g.known ==> a.value.Some?)
    && match g
       case Missed(_, known) => known && !a.gone ==> a.put.None? && a.remote.Some?
       case Asking(_, known) => known && !a.gone ==> a.remote.Some?
       case Fetched(_, _, bytes) => Settled(a) && a.writer != Some(Failing) && (a.value.Some? ==> a.value == Some(bytes))
       case Reopening(_, _) => true
       case Served(_, known, bytes) => known ==> a.value == Some(bytes)
       case NotFound(_, known) => known ==> a.gone
  }

  ghost predicate Armed(s: State) {
    s.phase == Up || s.adopted
  }

  ghost predicate Inv(s: State) {
    && (forall k :: SlotOk(At(s, k), Armed(s)))
    && (forall k :: UploaderRelies(s.uploader, k, At(s, k)))
    && (forall r :: r in s.readers ==> ReaderRelies(s.readers[r], At(s, s.readers[r].key)))
    && (s.phase != Up ==> s.uploader == Idle && s.readers == map[] && forall k :: At(s, k).writer.None?)
  }

  /** What a step may do to a key's history: the value is set once, and nothing is taken back. */
  ghost predicate Lasts(a: Slot, b: Slot) {
    (a.value.Some? ==> b.value == a.value) && (a.acked ==> b.acked) && (a.gone ==> b.gone)
  }

  // ----- each kind of move keeps what the others rely on

  lemma WriterMoveOk(a: Slot, w: WriterAct, ino: nat, b: Slot)
    requires SlotOk(a, true) && WriterMove(a, w, ino, b)
    ensures SlotOk(b, true) && Lasts(a, b)
    ensures forall u, k :: UploaderRelies(u, k, a) ==> UploaderRelies(u, k, b)
    ensures forall g :: ReaderRelies(g, a) ==> ReaderRelies(g, b)
  {
  }

  lemma DeleteMoveOk(a: Slot, d: DeleteAct, ino: nat, b: Slot)
    requires SlotOk(a, true) && DeleteMove(a, d, ino, b)
    ensures SlotOk(b, true) && Lasts(a, b)
    ensures forall u, k :: UploaderRelies(u, k, a) ==> UploaderRelies(u, k, b)
    ensures forall g :: ReaderRelies(g, a) ==> ReaderRelies(g, b)
  {
  }

  lemma SendMoveOk(u: Uploader, k: Key, a: Slot, act: SendAct, v: Uploader, b: Slot)
    requires SlotOk(a, true) && UploaderRelies(u, k, a) && SendMove(u, k, a, act, v, b)
    ensures SlotOk(b, true) && Lasts(a, b) && UploaderRelies(v, k, b)
    ensures forall j, c :: j != k && UploaderRelies(u, j, c) ==> UploaderRelies(v, j, c)
    ensures forall g :: ReaderRelies(g, a) ==> ReaderRelies(g, b)
  {
  }

  lemma RemoveMoveOk(u: Uploader, k: Key, a: Slot, act: RemoveAct, v: Uploader, b: Slot)
    requires SlotOk(a, true) && UploaderRelies(u, k, a) && RemoveMove(u, k, a, act, v, b)
    ensures SlotOk(b, true) && Lasts(a, b) && UploaderRelies(v, k, b)
    ensures forall j, c :: j != k && UploaderRelies(u, j, c) ==> UploaderRelies(v, j, c)
    ensures forall g :: ReaderRelies(g, a) ==> ReaderRelies(g, b)
  {
  }

  lemma EvictMoveOk(u: Uploader, k: Key, a: Slot, act: EvictAct, v: Uploader, b: Slot)
    requires SlotOk(a, true) && UploaderRelies(u, k, a) && EvictMove(u, k, a, act, v, b)
    ensures SlotOk(b, true) && Lasts(a, b) && UploaderRelies(v, k, b)
    ensures forall j, c :: j != k && UploaderRelies(u, j, c) ==> UploaderRelies(v, j, c)
    ensures forall g :: ReaderRelies(g, a) ==> ReaderRelies(g, b)
  {
  }

  lemma ReadMoveOk(g: Reader, a: Slot, act: ReadAct, h: Reader, b: Slot)
    requires SlotOk(a, true) && ReaderRelies(g, a) && ReadMove(g, a, act, h, b)
    ensures SlotOk(b, true) && Lasts(a, b) && ReaderRelies(h, b) && h.key == g.key
    ensures forall u, k :: UploaderRelies(u, k, a) ==> UploaderRelies(u, k, b)
    ensures forall o :: ReaderRelies(o, a) ==> ReaderRelies(o, b)
  {
  }

  // ----- whole runs

  lemma ThreadStepOk(s: State, step: Step, t: State)
    requires Inv(s) && Next(s, step, t) && (step.Write? || step.Delete? || step.Send? || step.Remove? || step.Evicts? || step.Read?)
    ensures Inv(t)
  {
    hide SlotOk, UploaderRelies, ReaderRelies, WriterMove, DeleteMove, SendMove, RemoveMove, EvictMove, ReadMove;
    var key := if step.Read? then s.readers[step.r].key else step.key;
    match step {
      case Write(k, w) => WriterMoveOk(At(s, k), w, s.inode, At(t, k));
      case Delete(k, d) => DeleteMoveOk(At(s, k), d, s.inode, At(t, k));
      case Send(k, u) => SendMoveOk(s.uploader, k, At(s, k), u, t.uploader, At(t, k));
      case Remove(k, x) => RemoveMoveOk(s.uploader, k, At(s, k), x, t.uploader, At(t, k));
      case Evicts(k, e) => EvictMoveOk(s.uploader, k, At(s, k), e, t.uploader, At(t, k));
      case Read(r, g) => ReadMoveOk(s.readers[r], At(s, key), g, t.readers[r], At(t, key));
    }
    forall j ensures SlotOk(At(t, j), true) && UploaderRelies(t.uploader, j, At(t, j)) {
      assert SlotOk(At(s, j), true) && UploaderRelies(s.uploader, j, At(s, j));
      assert j != key ==> At(t, j) == At(s, j);
    }
    forall r | r in t.readers ensures ReaderRelies(t.readers[r], At(t, t.readers[r].key)) {
      var j := t.readers[r].key;
      assert ReaderRelies(s.readers[r], At(s, s.readers[r].key));
      assert j != key ==> At(t, j) == At(s, j);
    }
  }

  /** A change to one key's files while nothing but the opening is running. */
  lemma OpeningOk(s: State, t: State, k: Key)
    requires Inv(s) && s.phase != Up && t.phase == s.phase && t.adopted == s.adopted
    requires t.uploader == s.uploader && t.readers == s.readers && t.at == s.at[k := At(t, k)]
    requires SlotOk(At(t, k), Armed(t)) && At(t, k).writer.None?
    ensures Inv(t)
  {
    hide SlotOk;
    forall j ensures SlotOk(At(t, j), Armed(t)) && At(t, j).writer.None? && UploaderRelies(t.uploader, j, At(t, j)) {
      assert SlotOk(At(s, j), Armed(s)) && At(s, j).writer.None?;
      assert j != k ==> At(t, j) == At(s, j);
    }
  }

  lemma CrashOk(s: State, t: State)
    requires Inv(s) && Next(s, Crash, t)
    ensures Inv(t)
  {
    forall k ensures SlotOk(At(t, k), Armed(t)) && At(t, k).writer.None? && UploaderRelies(t.uploader, k, At(t, k)) {
      assert SlotOk(At(s, k), Armed(s)) && At(t, k) == At(s, k).(writer := None);
    }
  }

  /** Nothing on disk or in the store changes. */
  lemma QuietOk(s: State, t: State)
    requires Inv(s) && t.at == s.at && t.uploader == s.uploader
    requires forall k :: SlotOk(At(s, k), Armed(t))
    requires forall r :: r in t.readers ==> ReaderRelies(t.readers[r], At(s, t.readers[r].key))
    requires t.phase != Up ==> s.phase != Up && t.readers == map[]
    ensures Inv(t)
  {
    hide SlotOk, UploaderRelies, ReaderRelies;
    forall k ensures SlotOk(At(t, k), Armed(t)) && UploaderRelies(t.uploader, k, At(t, k)) && At(t, k) == At(s, k) {
      assert UploaderRelies(s.uploader, k, At(s, k));
    }
  }

  lemma OtherStepOk(s: State, step: Step, t: State)
    requires Inv(s) && Next(s, step, t) && !(step.Write? || step.Delete? || step.Send? || step.Remove? || step.Evicts? || step.Read?)
    ensures Inv(t)
  {
    hide UploaderRelies;
    match step {
      case Look(r, k) =>
        assert SlotOk(At(s, k), true);
        QuietOk(s, t);
      case EndRead(r) => QuietOk(s, t);
      case Crash => CrashOk(s, t);
      case Start => QuietOk(s, t);
      case ClearOne(k) =>
        assert SlotOk(At(s, k), Armed(s)) && At(s, k).writer.None?;
        OpeningOk(s, t, k);
      case ClearDone => QuietOk(s, t);
      case AdoptOne(k) =>
        assert SlotOk(At(s, k), Armed(s)) && At(s, k).writer.None?;
        OpeningOk(s, t, k);
      case AdoptDone(_) =>
        forall j ensures SlotOk(At(s, j), true) {
          assert SlotOk(At(s, j), Armed(s));
        }
        QuietOk(s, t);
    }
  }

  lemma InitOk(s: State)
    requires Init(s)
    ensures Inv(s)
  {
    forall k ensures SlotOk(At(s, k), Armed(s)) {
      assert InitSlot(At(s, k));
    }
  }

  lemma {:induction false} RunOk(run: seq<State>, steps: seq<Step>, i: nat)
    requires IsRun(run, steps) && i < |run|
    ensures Inv(run[i])
  {
    if i == 0 {
      InitOk(run[0]);
    } else {
      RunOk(run, steps, i - 1);
      assert Goes(run, steps, i - 1);
      var step := steps[i - 1];
      hide Inv, Next;
      if step.Write? || step.Delete? || step.Send? || step.Remove? || step.Evicts? || step.Read? {
        ThreadStepOk(run[i - 1], step, run[i]);
      } else {
        OtherStepOk(run[i - 1], step, run[i]);
      }
    }
  }

  /**
    In every interleaving, with crashes and restarts anywhere, a blob whose
    commit returned 0 and that nobody deleted or swept is in the store with its
    own bytes, or in the blob directory with its own bytes and its put entry
    queued; before adoption is over it may be in the directory still to be queued.
   */
  lemma AcknowledgedBlobsSurvive(run: seq<State>, steps: seq<Step>, i: nat, k: Key)
    requires IsRun(run, steps) && i < |run|
    requires At(run[i], k).acked && !At(run[i], k).gone
    ensures var a := At(run[i], k);
            && a.value.Some?
            && (|| a.remote == a.value
                || (a.blob == a.value && (a.put.Some? || (run[i].phase != Up && !run[i].adopted))))
  {
    RunOk(run, steps, i);
    assert SlotOk(At(run[i], k), Armed(run[i]));
  }

  /** The uploader answers "nothing to send" only for a blob that was never published, or that was deleted or swept since. */
  lemma NothingToSendIsTrue(run: seq<State>, steps: seq<Step>, i: nat)
    requires IsRun(run, steps) && i < |run| && run[i].uploader.NothingToSend?
    ensures At(run[i], run[i].uploader.key).value.None? || At(run[i], run[i].uploader.key).gone
    ensures var a := At(run[i], run[i].uploader.key);
            a.writer.None? || a.writer.value.Published? || a.writer.value.Failing?
  {
    RunOk(run, steps, i);
    assert UploaderRelies(run[i].uploader, run[i].uploader.key, At(run[i], run[i].uploader.key));
  }

  /**
    A read that is served gets the bytes that were published, and one that began
    after the blob was published is told there is no such blob only if it was
    deleted or swept meanwhile.
   */
  lemma ReadsAreTrue(run: seq<State>, steps: seq<Step>, i: nat, r: nat)
    requires IsRun(run, steps) && i < |run| && r in run[i].readers && run[i].readers[r].known
    ensures var g := run[i].readers[r]; g.Served? ==> At(run[i], g.key).value == Some(g.bytes)
    ensures var g := run[i].readers[r]; g.NotFound? ==> At(run[i], g.key).gone
  {
    RunOk(run, steps, i);
    assert ReaderRelies(run[i].readers[r], At(run[i], run[i].readers[r].key));
  }

  lemma StepLasts(s: State, step: Step, t: State, k: Key)
    requires Inv(s) && Next(s, step, t)
    ensures Lasts(At(s, k), At(t, k))
  {
    hide SlotOk, UploaderRelies, ReaderRelies, WriterMove, DeleteMove, SendMove, RemoveMove, EvictMove, ReadMove;
    match step {
      case Write(j, w) => WriterMoveOk(At(s, j), w, s.inode, At(t, j));
      case Delete(j, d) => DeleteMoveOk(At(s, j), d, s.inode, At(t, j));
      case Send(j, u) => SendMoveOk(s.uploader, j, At(s, j), u, t.uploader, At(t, j));
      case Remove(j, x) => RemoveMoveOk(s.uploader, j, At(s, j), x, t.uploader, At(t, j));
      case Evicts(j, e) => EvictMoveOk(s.uploader, j, At(s, j), e, t.uploader, At(t, j));
      case Read(r, g) => ReadMoveOk(s.readers[r], At(s, s.readers[r].key), g, t.readers[r], At(t, s.readers[r].key));
      case _ =>
    }
  }

  /** What a key held when it was published never changes, and neither acknowledgement nor delete is taken back. */
  lemma {:induction false} HistoryLasts(run: seq<State>, steps: seq<Step>, i: nat, j: nat, k: Key)
    requires IsRun(run, steps) && i <= j < |run|
    ensures Lasts(At(run[i], k), At(run[j], k))
    decreases j - i
  {
    hide Inv, Next, Lasts, At;
    if i == j {
      LastsSame(At(run[i], k));
    } else {
      HistoryLasts(run, steps, i, j - 1, k);
      RunOk(run, steps, j - 1);
      assert Goes(run, steps, j - 1);
      StepLasts(run[j - 1], steps[j - 1], run[j], k);
      LastsOn(At(run[i], k), At(run[j - 1], k), At(run[j], k));
    }
  }

  lemma LastsSame(s: Slot)
    ensures Lasts(s, s)
  {
  }

  lemma LastsOn(s: Slot, t: Slot, u: Slot)
    requires Lasts(s, t) && Lasts(t, u)
    ensures Lasts(s, u)
  {
  }
}
