/**
 The connect-state registry: which outbound handles are pending, up or failed
 (crates/rhpv2/src/client.rs, `ConnRegistry`), and what any history of
 operations on it can and cannot produce.
 */
module ConnRegistry {
  import opened Bytes

  const ECONNREFUSED := 111
  const ECONNRESET := 104
  const EIO := 5

  datatype Phase = Pending | Connected | Failed(errno: int)

  /** What one handle's entry can hold; `None` when the map has no entry. */
  type Entry = Option<Phase>

  predicate Terminal(e: Entry) {
    e.Some? && !e.value.Pending?
  }

  /** RHPv2 errCode to POSIX errno, with Linux's numbers. */
  function ErrcodeToErrno(code: int): int {
    match code
    case 0 => 0
    case 3 => 9       // EBADF
    case 6 => 99      // EADDRNOTAVAIL
    case 7 => 22      // EINVAL
    case 8 => 97      // EAFNOSUPPORT
    case 9 => 98      // EADDRINUSE
    case 14 => 13     // EACCES
    case 15 => 113    // EHOSTUNREACH
    case 16 => 95     // EOPNOTSUPP
    case 17 => 107    // ENOTCONN
    case 12 => 22     // EINVAL
    case _ => EIO
  }

  /** The errno a server-initiated close carries into the registry. */
  function CloseErrno(code: int): int {
    if code == 0 then ECONNREFUSED else ErrcodeToErrno(code)
  }

  /** An operation on one handle's entry, as the client and its reader issue them. */
  datatype Op =
    | SetPending
    | StatusConnected
    | ServerClose(code: int)
    | TransportLost
    | TakeError
    | Forget

  function ApplyOp(e: Entry, op: Op): Entry {
    match op
    case SetPending => if e.None? then Some(Pending) else e
    case StatusConnected => Some(Connected)
    case ServerClose(code) => if e == Some(Pending) then Some(Failed(CloseErrno(code))) else e
    case TransportLost => if e == Some(Pending) then Some(Failed(ECONNRESET)) else e
    case TakeError => if TakenErrno(e) != 0 then Some(Connected) else e
    case Forget => None
  }

  /** What `take_error` returns when it finds entry `e`. */
  function TakenErrno(e: Entry): int {
    if e.Some? && e.value.Failed? then e.value.errno else 0
  }

  function ApplyOps(e: Entry, ops: seq<Op>): Entry
    decreases |ops|
  {
    if ops == [] then e else ApplyOps(ApplyOp(e, ops[0]), ops[1..])
  }

  /** `ConnRegistry` itself: the mutex-guarded map. Each method is one critical section. */
  class Registry {
    var phases: map<Handle, Phase>

    constructor ()
      ensures phases == map[]
    {
      phases := map[];
    }

    function At(h: Handle): Entry
      reads this
    {
      if h in phases then Some(phases[h]) else None
    }

    method SetPending(h: Handle)
      modifies this
      ensures forall k :: At(k) == if k == h then ApplyOp(old(At(k)), Op.SetPending) else old(At(k))
    {
      if h !in phases {
        phases := phases[h := Pending];
      }
    }

    method MarkConnected(h: Handle)
      modifies this
      ensures forall k :: At(k) == if k == h then ApplyOp(old(At(k)), StatusConnected) else old(At(k))
    {
      phases := phases[h := Connected];
    }

    method MarkFailed(h: Handle, code: int)
      modifies this
      ensures forall k :: At(k) == if k == h then ApplyOp(old(At(k)), ServerClose(code)) else old(At(k))
    {
      if h in phases && phases[h] == Pending {
        phases := phases[h := Failed(CloseErrno(code))];
      }
    }

    /** Visits the entries in no particular order, as a `HashMap` iteration does. */
    method FailAllPending()
      modifies this
      ensures forall k :: At(k) == ApplyOp(old(At(k)), TransportLost)
    {
      var todo := phases.Keys;
      while todo != {}
        invariant todo <= phases.Keys
        invariant forall k :: k in todo ==> At(k) == old(At(k))
        invariant forall k :: k !in todo ==> At(k) == ApplyOp(old(At(k)), TransportLost)
      {
        var k :| k in todo;
        if phases[k] == Pending {
          phases := phases[k := Failed(ECONNRESET)];
        }
        todo := todo - {k};
      }
    }

    /** `connect_result`: `None` while undecided, else the errno (0 once connected). */
    method Result(h: Handle) returns (r: Option<int>)
      ensures r.Some? <==> Terminal(At(h))
      ensures r.Some? ==> r.value == TakenErrno(At(h))
      ensures h in phases && phases[h].Connected? ==> r == Some(0)
      ensures h in phases && phases[h].Failed? ==> r == Some(phases[h].errno)
      ensures h !in phases || phases[h].Pending? ==> r == None
    {
      if h !in phases {
        return None;
      }
      match phases[h]
      case Connected => return Some(0);
      case Failed(e) => return Some(e);
      case Pending => return None;
    }

    method TakeError(h: Handle) returns (e: int)
      modifies this
      ensures e == TakenErrno(old(At(h)))
      ensures forall k :: At(k) == if k == h then ApplyOp(old(At(k)), Op.TakeError) else old(At(k))
    {
      if h !in phases {
        return 0;
      }
      e := if phases[h].Failed? then phases[h].errno else 0;
      if e != 0 {
        phases := phases[h := Connected];
      }
    }

    method Forget(h: Handle)
      modifies this
      ensures forall k :: At(k) == if k == h then ApplyOp(old(At(k)), Op.Forget) else old(At(k))
    {
      phases := phases - {h};
    }
  }

  // ---- Histories -------------------------------------------------------

  /** No stored failure carries errno 0, which `take_error` would hide as success. */
  predicate Honest(e: Entry) {
    e.Some? && e.value.Failed? ==> e.value.errno != 0
  }

  /** Every failure that any history stores has a non-zero errno. */
  lemma {:induction false} FailuresHaveAnErrno(e: Entry, ops: seq<Op>)
    requires Honest(e)
    ensures Honest(ApplyOps(e, ops))
    decreases |ops|
  {
    if ops != [] {
      FailuresHaveAnErrno(ApplyOp(e, ops[0]), ops[1..]);
    }
  }

  /** `Connected` is absorbing until the handle is forgotten. */
  lemma {:induction false} ConnectedAbsorbs(ops: seq<Op>)
    requires Forget !in ops
    ensures ApplyOps(Some(Connected), ops) == Some(Connected)
    decreases |ops|
  {
    if ops != [] {
      assert ApplyOp(Some(Connected), ops[0]) == Some(Connected);
      ConnectedAbsorbs(ops[1..]);
    }
  }

  /** SO_ERROR hands a failure out once: whatever follows, the next read is 0. */
  lemma FailureIsReportedOnce(e: Entry, ops: seq<Op>)
    requires TakenErrno(e) != 0
    requires Forget !in ops
    ensures TakenErrno(ApplyOps(ApplyOp(e, TakeError), ops)) == 0
  {
    ConnectedAbsorbs(ops);
  }

  /**
   A stored failure reaches the next SO_ERROR read exactly when no
   status(Connected) overwrote it and nobody read it first: `Failed` is not terminal.
   */
  lemma {:induction false} FailureSurvivesIff(errno: int, ops: seq<Op>)
    requires errno != 0
    requires Forget !in ops
    ensures TakenErrno(ApplyOps(Some(Failed(errno)), ops)) == errno
       <==> StatusConnected !in ops && TakeError !in ops
    decreases |ops|
  {
    if ops != [] {
      var rest := ops[1..];
      assert ops == [ops[0]] + rest;
      if ops[0] == StatusConnected || ops[0] == TakeError {
        ConnectedAbsorbs(rest);
      } else {
        FailureSurvivesIff(errno, rest);
      }
    }
  }

  lemma {:induction false} OpsInTurn(e: Entry, before: seq<Op>, after: seq<Op>)
    ensures ApplyOps(e, before + after) == ApplyOps(ApplyOps(e, before), after)
    decreases |before|
  {
    if before == [] {
      assert before + after == after;
    } else {
      assert (before + after)[0] == before[0] && (before + after)[1..] == before[1..] + after;
      OpsInTurn(ApplyOp(e, before[0]), before[1..], after);
    }
  }

  /** Forget starts afresh: whatever came before it, the entry ends as that of a new handle would. */
  lemma ForgetStartsAfresh(e: Entry, before: seq<Op>, after: seq<Op>)
    ensures ApplyOps(e, before + [Forget] + after) == ApplyOps(None, after)
    ensures ApplyOps(e, before + [Forget]) == None
  {
    OpsInTurn(e, before + [Forget], after);
    OpsInTurn(e, before, [Forget]);
    assert ApplyOps(ApplyOps(e, before), [Forget]) == ApplyOps(None, []);
  }

  /** The errno that a close with each code leaves on a pending connect, and that SO_ERROR then reads. */
  lemma CloseLeaves(code: int)
    ensures ApplyOp(Some(Pending), ServerClose(code)) == Some(Failed(
              if code == 0 then 111 else if code == 3 then 9 else if code == 6 then 99
              else if code == 7 || code == 12 then 22 else if code == 8 then 97 else if code == 9 then 98
              else if code == 14 then 13 else if code == 15 then 113 else if code == 16 then 95
              else if code == 17 then 107 else 5))
    ensures ApplyOp(Some(Pending), TransportLost) == Some(Failed(104))
    ensures TakenErrno(ApplyOp(Some(Pending), ServerClose(code))) != 0
  {
  }

  predicate IsFailure(op: Op) {
    op.ServerClose? || op.TransportLost?
  }

  /** The errno of the first failure in `ops`. */
  function FirstFailure(ops: seq<Op>): Option<int>
    decreases |ops|
  {
    if ops == [] then None
    else if ops[0].ServerClose? then Some(CloseErrno(ops[0].code))
    else if ops[0].TransportLost? then Some(ECONNRESET)
    else FirstFailure(ops[1..])
  }

  /** `ops` from its first `SetPending` on. */
  function FromTracking(ops: seq<Op>): seq<Op>
    decreases |ops|
  {
    if ops == [] || ops[0] == SetPending then ops else FromTracking(ops[1..])
  }

  /**
   How a history ought to end, read off it as a whole: any status(Connected)
   wins wherever it stands; otherwise the first failure after tracking began;
   failures before that are lost.
   */
  function Verdict(ops: seq<Op>): Entry {
    if StatusConnected in ops then Some(Connected)
    else if SetPending !in ops then None
    else match FirstFailure(FromTracking(ops))
      case Some(errno) => Some(Failed(errno))
      case None => Some(Pending)
  }

  lemma {:induction false} PendingRun(ops: seq<Op>)
    requires Forget !in ops && TakeError !in ops && StatusConnected !in ops
    ensures ApplyOps(Some(Pending), ops) ==
            match FirstFailure(ops)
            case Some(errno) => Some(Failed(errno))
            case None => Some(Pending)
    decreases |ops|
  {
    if ops != [] {
      var rest := ops[1..];
      if ops[0].SetPending? {
        PendingRun(rest);
      } else {
        FailedRun(FirstFailure(ops).value, rest);
      }
    }
  }

  lemma {:induction false} FailedRun(errno: int, ops: seq<Op>)
    requires Forget !in ops && TakeError !in ops && StatusConnected !in ops
    ensures ApplyOps(Some(Failed(errno)), ops) == Some(Failed(errno))
    decreases |ops|
  {
    if ops != [] {
      FailedRun(errno, ops[1..]);
    }
  }

  lemma {:induction false} StatusWins(e: Entry, ops: seq<Op>)
    requires Forget !in ops && StatusConnected in ops
    ensures ApplyOps(e, ops) == Some(Connected)
    decreases |ops|
  {
    var rest := ops[1..];
    assert ops == [ops[0]] + rest;
    if ops[0] == StatusConnected {
      ConnectedAbsorbs(rest);
    } else {
      StatusWins(ApplyOp(e, ops[0]), rest);
    }
  }

  /**
   The registry computes the verdict: for every history of a fresh handle that
   nobody has read or forgotten, the entry is the one `Verdict` reads off.
   */
  lemma {:induction false} HistoryDecidesEntry(ops: seq<Op>)
    requires Forget !in ops && TakeError !in ops
    ensures ApplyOps(None, ops) == Verdict(ops)
    decreases |ops|
  {
    if StatusConnected in ops {
      StatusWins(None, ops);
    } else if ops != [] {
      var rest := ops[1..];
      assert ops == [ops[0]] + rest;
      if ops[0] == SetPending {
        PendingRun(rest);
      } else {
        HistoryDecidesEntry(rest);
      }
    }
  }

  /** Failures dispatched before tracking begins leave no trace at all. */
  lemma {:induction false} EarlyFailuresAreForgotten(before: seq<Op>, after: seq<Op>)
    requires forall op | op in before :: IsFailure(op)
    ensures ApplyOps(None, before + after) == ApplyOps(None, after)
    decreases |before|
  {
    if before == [] {
      assert before + after == after;
    } else {
      assert IsFailure(before[0]);
      assert (before + after)[1..] == before[1..] + after;
      EarlyFailuresAreForgotten(before[1..], after);
    }
  }
}
