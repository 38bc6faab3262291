/**
 Kernel cache epochs.  An allocator counts up within one boot and writes every
 epoch to disk before handing it out; a new boot starts again at one.
 */
module Epochs {
  import opened Wrappers
  import opened Marks

  /** The state file; `Damaged` fails its checksum or its schema. */
  datatype EpochFile = Missing | Damaged | Saved(boot: string, highest: nat)

  /** How one atomic replace of the file ends. */
  datatype WriteFate = Written | Lost | WrittenUnsynced

  datatype Allocation = Allocation(epoch: Option<nat>, highest: nat, file: EpochFile)

  /** `NewEpochAllocator`: the count to continue from, or none when the file is damaged. */
  function Opened(file: EpochFile, boot: string): Option<nat> {
    match file
    case Missing => Some(0)
    case Damaged => None
    case Saved(b, highest) => Some(if b == boot then highest else 0)
  }

  function Allocated(highest: nat, file: EpochFile, boot: string, fate: WriteFate): Allocation {
    if highest >= MAX_EPOCH then Allocation(None, highest, file)
    else match fate
      case Written => Allocation(Some(highest + 1), highest + 1, Saved(boot, highest + 1))
      case Lost => Allocation(None, highest, file)
      case WrittenUnsynced => Allocation(None, highest, Saved(boot, highest + 1))
  }

  class EpochStore {
    var file: EpochFile
    constructor (f: EpochFile)
      ensures file == f
    {
      file := f;
    }
  }

  class EpochAllocator {
    const store: EpochStore
    const boot: string
    var highest: nat

    constructor (s: EpochStore, b: string)
      requires Opened(s.file, b).Some?
      ensures store == s && boot == b && Some(highest) == Opened(s.file, b)
    {
      store, boot := s, b;
      highest := if s.file.Saved? && s.file.boot == b then s.file.highest else 0;
    }

    /** `Allocate`: count up, persist, and count back down when that fails. */
    method Allocate(fate: WriteFate) returns (epoch: Option<nat>)
      modifies this, store
      ensures Allocation(epoch, highest, store.file) == Allocated(old(highest), old(store.file), boot, fate)
      ensures epoch.Some? ==> EpochInRange(epoch.value) && epoch.value > old(highest)
                              && store.file == Saved(boot, epoch.value)
      ensures highest >= old(highest)
    {
      if highest >= MAX_EPOCH { return None; }
      highest := highest + 1;
      var persisted := Persist(fate);
      if !persisted {
        highest := highest - 1;
        return None;
      }
      epoch := Some(highest);
    }

    /** `persistLocked` */
    method Persist(fate: WriteFate) returns (ok: bool)
      modifies store
      ensures ok <==> fate == Written
      ensures store.file == if fate == Lost then old(store.file) else Saved(boot, highest)
    {
      if fate != Lost { store.file := Saved(boot, highest); }
      ok := fate == Written;
    }
  }

  /** `NewEpochAllocator`: a damaged file is an error. */
  method NewEpochAllocator(store: EpochStore, boot: string) returns (r: Result<EpochAllocator>)
    ensures r.Success? <==> Opened(store.file, boot).Some?
    ensures r.Success? ==> r.value.store == store && r.value.boot == boot
                           && Some(r.value.highest) == Opened(store.file, boot)
  {
    if store.file.Damaged? { return Failure("epoch state is damaged"); }
    var a := new EpochAllocator(store, boot);
    r := Success(a);
  }

  // ------------------------------------------------------- runs of one boot

  /** Within a boot a process allocates, or dies and is started again. */
  datatype BootStep = Allocate(fate: WriteFate) | Restart

  /** The memory of the process and the file; no memory means no allocator. */
  datatype BootState = BootState(highest: Option<nat>, file: EpochFile, issued: seq<nat>)

  function BootNext(s: BootState, boot: string, step: BootStep): BootState {
    match step
    case Restart => s.(highest := Opened(s.file, boot))
    case Allocate(fate) =>
      if s.highest.None? then s
      else
        var a := Allocated(s.highest.value, s.file, boot, fate);
        BootState(Some(a.highest), a.file, if a.epoch.Some? then s.issued + [a.epoch.value] else s.issued)
  }

  function BootRun(s: BootState, boot: string, steps: seq<BootStep>): BootState {
    if |steps| == 0 then s
    else BootNext(BootRun(s, boot, steps[..|steps| - 1]), boot, steps[|steps| - 1])
  }

  predicate Increasing(s: seq<nat>) {
    forall i, j :: 0 <= i < j < |s| ==> s[i] < s[j]
  }

  /** Neither the memory nor the file is behind an issued epoch. */
  predicate Ahead(s: BootState, boot: string) {
    && (s.highest.Some? ==> forall e :: e in s.issued ==> e <= s.highest.value)
    && (s.issued != [] ==> Opened(s.file, boot).Some? && forall e :: e in s.issued ==> e <= Opened(s.file, boot).value)
    && (s.highest.Some? ==> Opened(s.file, boot).Some? && s.highest.value <= Opened(s.file, boot).value)
  }

  lemma StepKeepsOrder(s: BootState, boot: string, step: BootStep)
    requires Ahead(s, boot) && Increasing(s.issued) && forall e :: e in s.issued ==> EpochInRange(e)
    ensures var t := BootNext(s, boot, step);
            Ahead(t, boot) && Increasing(t.issued) && forall e :: e in t.issued ==> EpochInRange(e)
  {
    var t := BootNext(s, boot, step);
    if t.issued != s.issued {
      assert forall i :: 0 <= i < |s.issued| ==> t.issued[i] == s.issued[i] && s.issued[i] in s.issued;
    }
  }

  /**
   Whatever the file held before, and however often writes fail and the process
   dies, one boot never issues an epoch twice.
   */
  lemma {:induction false} EpochsNeverReused(file: EpochFile, boot: string, steps: seq<BootStep>)
    ensures var s := BootRun(BootState(Opened(file, boot), file, []), boot, steps);
            Ahead(s, boot) && Increasing(s.issued) && forall e :: e in s.issued ==> EpochInRange(e)
  {
    if |steps| > 0 {
      EpochsNeverReused(file, boot, steps[..|steps| - 1]);
      StepKeepsOrder(BootRun(BootState(Opened(file, boot), file, []), boot, steps[..|steps| - 1]), boot,
                     steps[|steps| - 1]);
    }
  }

  /** Another boot does reuse epochs: the first one of every boot is one. */
  lemma NewBootRestarts(file: EpochFile, boot: string)
    requires file.Saved? && file.boot != boot
    ensures BootRun(BootState(Opened(file, boot), file, []), boot, [Allocate(Written)]).issued == [1]
  {
    assert [Allocate(Written)][..0] == [];
  }
}
