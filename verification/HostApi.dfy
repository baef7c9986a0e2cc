/** The host's shared state as the objects it is made of: a kernel and a log, one request's
    path through both, and the kernel rebuilt from the log at boot. */
module HostApi {
  import opened Wrappers
  import opened Receipts
  import opened Crypto
  import opened Kernel
  import opened KernelObject
  import opened Log
  import opened MemoryLog
  import opened SqliteLog
  import H = Host

  datatype ApiError = Conflict(kernel: KernelError) | AppendFailed(append: AppendError)

  /** What handling an event to its end does to kernel state and log, and what it answers. */
  function Completed(cfg: Config, st: KernelState, log: seq<Receipt>, ev: Event, now: string)
    : (KernelState, seq<Receipt>, Result<Receipt, ApiError>)
  {
    var (st', handled) := Handled(cfg, st, ev, now);
    match handled
    case Err(e) => (st', log, Err(Conflict(e)))
    case Ok(o) =>
      match AppendCheck(cfg.crypto, cfg.crypto.publicKey, log, o.receipt)
      case Some(e) => (st', log, Err(AppendFailed(e)))
      case None => (st', log + [o.receipt], Ok(o.receipt))
  }

  class ApiState {
    const kernel: KernelObject
    const log: InMemoryReceiptLog

    constructor (kernel: KernelObject, log: InMemoryReceiptLog)
      ensures this.kernel == kernel && this.log == log
    {
      this.kernel, this.log := kernel, log;
    }

    /** The log is pinned to the kernel's key. */
    ghost predicate Valid()
      reads log
    {
      log.Valid() && log.crypto == kernel.cfg.crypto && log.issuer == kernel.cfg.crypto.publicKey
    }

    /** `handle_event`: the kernel under its lock, then the log under its own. */
    method HandleEvent(ev: Event, now: string) returns (r: Result<Receipt, ApiError>)
      requires Valid()
      modifies kernel, log
      ensures Valid()
      ensures (kernel.state, log.receipts, r) == Completed(kernel.cfg, old(kernel.state), old(log.receipts), ev, now)
    {
      var handled := kernel.Handle(ev, now);
      if handled.Err? {
        return Err(Conflict(handled.error));
      }
      var appended := log.Append(handled.value.receipt);
      if appended.Fail? {
        return Err(AppendFailed(appended.error));
      }
      return Ok(handled.value.receipt);
    }
  }

  /** The same state over the SQLite log, which the source takes through one interface. */
  class SqliteApiState {
    const kernel: KernelObject
    const log: SqliteReceiptLog

    constructor (kernel: KernelObject, log: SqliteReceiptLog)
      ensures this.kernel == kernel && this.log == log
    {
      this.kernel, this.log := kernel, log;
    }

    /** The log holds `receipts`, and is pinned to the kernel's key. */
    ghost predicate Holds(receipts: seq<Receipt>)
      reads log
    {
      Refines(log.crypto, log.View(), receipts) && log.crypto == kernel.cfg.crypto && log.issuer == kernel.cfg.crypto.publicKey
    }

    /** Over this log `handle_event` does and answers just the same, up to 2^63 receipts. */
    method HandleEvent(ev: Event, now: string, ghost receipts: seq<Receipt>) returns (r: Result<Receipt, ApiError>)
      requires Holds(receipts) && |receipts| < I64_LIMIT
      modifies kernel, log
      ensures var done := Completed(kernel.cfg, old(kernel.state), receipts, ev, now);
        kernel.state == done.0 && Holds(done.1) && r == done.2
    {
      var handled := kernel.Handle(ev, now);
      if handled.Err? {
        return Err(Conflict(handled.error));
      }
      AppendRefines(log.crypto, log.View(), receipts, handled.value.receipt);
      var appended := log.Append(handled.value.receipt);
      if appended.Fail? {
        return Err(AppendFailed(appended.error));
      }
      return Ok(handled.value.receipt);
    }
  }

  method ResumeAfter(last: Option<Receipt>, cfg: Config) returns (kernel: KernelObject)
    ensures fresh(kernel) && kernel.cfg == cfg
    ensures kernel.state == match last case None => Genesis() case Some(r) => KernelState(SatAdd64(Seq(r), 1), LeafOf(r))
  {
    if last.Some? {
      var leaf := last.value.body.merkleLeaf;
      kernel := new KernelObject.Resume(cfg, KernelState(SatAdd64(leaf.sequence, 1), leaf.leafHash));
    } else {
      kernel := new KernelObject.New(cfg);
    }
  }

  /** `build_kernel_from_log`, over either log. */
  method BuildKernelFromLog(log: InMemoryReceiptLog, cfg: Config) returns (kernel: KernelObject)
    ensures fresh(kernel) && kernel.cfg == cfg && kernel.state == H.KernelFromLog(log.receipts)
  {
    var last := log.Last();
    kernel := ResumeAfter(last, cfg);
  }

  method BuildKernelFromSqlite(log: SqliteReceiptLog, cfg: Config, ghost receipts: seq<Receipt>) returns (kernel: KernelObject)
    requires Refines(log.crypto, log.View(), receipts) && |receipts| < I64_LIMIT
    ensures fresh(kernel) && kernel.cfg == cfg && kernel.state == H.KernelFromLog(receipts)
  {
    LookupBySequenceRefines(log.crypto, log.View(), receipts, 0);
    var last := log.Last();
    kernel := ResumeAfter(last, cfg);
  }

  /** Handling an event without interruption is the two steps of the host machine, mint and
      then append, and leaves no request behind.  A success answers with the receipt just minted and
      logged; a conflict minted nothing. */
  lemma CompletedIsMintThenAppend(c: Crypto, h: H.Host, id: nat, now: string)
    requires id in h.tasks && h.tasks[id].Ready?
    ensures var h' := H.Next(c, H.Next(c, h, H.Mint(id, now)), H.Append(id));
      var done := Completed(H.Setup(c, h), h.kernel, h.log, h.tasks[id].event, now);
      && h'.kernel == done.0 && h'.log == done.1 && h'.tasks == h.tasks - {id} && h'.boot == h.boot
      && (done.2.Ok? ==> h'.log == h.log + [done.2.value] && h'.minted == h.minted + [done.2.value])
      && (done.2.Err? ==> h'.log == h.log && (done.2.error.Conflict? <==> h'.minted == h.minted))
  {
    var h1 := H.Next(c, h, H.Mint(id, now));
    var handled := Handled(H.Setup(c, h), h.kernel, h.tasks[id].event, now).1;
    if handled.Ok? {
      assert h1.tasks == h.tasks[id := H.Appending(handled.value.receipt)];
      assert h1.tasks - {id} == h.tasks - {id};
    }
  }
}
