/**
 * `Drizzle::Connection`: the settings fixed by `initialize`, and the
 * send/complete state machine of `async_query`, `async_result` and `query`
 * over the protocol engine, whose replies (status codes, the socket
 * descriptor, the buffered result, the error string) are parameters.
 */
module Connections {
  import opened Wrappers
  import opened ReturnCodes
  import opened ConOptions
  import opened Engine
  import opened Results

  /** The identity of a Ruby proc or block. */
  type Callback = nat

  /** A `drizzle_st` handle supplied by the caller. */
  datatype ClientHandle = ClientHandle(id: nat)

  /** What `initialize` stores and hands to the engine. */
  datatype Settings = Settings(
    host: string, user: string, pass: string, db: Option<string>,
    opts: seq<Word>, mask: bv32, port: int, fromPool: bool)

  /**
   * The computation in `initialize`: normalise `opts`, fold the option mask
   * (raising `TypeError` on a word that has no enum value), pick the port,
   * and remember whether a drizzle handle came from the caller.
   */
  function Configure(host: string, user: string, pass: string, db: Option<string>,
                     opts: OptsArg, drizzle: Option<ClientHandle>): (r: Raises<Settings>)
    ensures r.Raised? <==> HasUnknown(Normalize(opts))
    ensures r.Raised? ==> r.error.TypeError?
    ensures r.Returned? ==>
              var ws := Normalize(opts);
              && r.value.opts == ws
              && Mask(ws) == Some(r.value.mask)
              && (Known(ConMysql) in ws ==> r.value.port == MysqlPort)
              && (Known(ConMysql) !in ws ==> r.value.port == DrizzlePort)
              && (r.value.fromPool <==> drizzle.Some?)
              && r.value.host == host && r.value.user == user && r.value.pass == pass && r.value.db == db
  {
    var ws := Normalize(opts);
    match Mask(ws)
    case None => Raised(TypeError("nil can't be coerced into Integer"))
    case Some(m) => Returned(Settings(host, user, pass, db, ws, m, Port(ws), drizzle.Some?))
  }

  /** `proc ||= blk` */
  function Pick(proc: Option<Callback>, blk: Option<Callback>): (c: Option<Callback>)
    ensures proc.Some? ==> c == proc
    ensures proc.None? ==> c == blk
    ensures c.Some? <==> proc.Some? || blk.Some?
  {
    if proc.Some? then proc else blk
  }

  /** One call of a stored callback, with the Result it was given. */
  datatype Firing = Firing(callback: Callback, result: Result)

  /**
   * The mutable state of a connection: `@callback`, `@fd`, the int behind
   * `@retptr`, the queries handed to `query_str`, and the callback calls made.
   */
  datatype ConnState = ConnState(
    callback: Option<Callback>, fd: Option<int>, retptr: int,
    sent: seq<string>, fired: seq<Firing>)

  /** Right after `initialize` (FFI zero-fills the new `MemoryPointer`). */
  const Initial: ConnState := ConnState(None, None, 0, [], [])

  datatype Sent = Sent(state: ConnState, ret: Raises<int>)

  /** `async_query`: send, check the status, store the callback, return the memoised descriptor. */
  function Send(s: ConnState, query: string, proc: Option<Callback>, blk: Option<Callback>,
                status: int, conFd: int, lastError: string): (o: Sent)
    ensures o.state.sent == s.sent + [query] && o.state.retptr == status && o.state.fired == s.fired
    ensures o.ret.Raised? <==> status != 0
    ensures o.ret.Raised? ==>
              o.ret.error == QueryFailed(lastError) && o.state.callback == s.callback && o.state.fd == s.fd
    ensures o.ret.Returned? ==>
              && o.state.callback == Pick(proc, blk)
              && o.state.fd == Some(o.ret.value)
              && (s.fd.Some? ==> o.ret.value == s.fd.value)
              && (s.fd.None? ==> o.ret.value == conFd)
  {
    var s1 := s.(retptr := status, sent := s.sent + [query]);
    match CheckError(status, lastError)
    case Raised(e) => Sent(s1, Raised(e))
    case Returned(_) =>
      var fd := if s.fd.Some? then s.fd.value else conFd;
      Sent(s1.(callback := Pick(proc, blk), fd := Some(fd)), Returned(fd))
  }

  /** The new state, the outcome, and how many times the result handle was freed. */
  datatype Completion = Completion(state: ConnState, ret: Raises<Result>, frees: nat)

  /** `async_result` on the engine's replies to `result_read` and `result_buffer`. */
  function Complete(s: ConnState, readStatus: int, bufferStatus: int, w: Wire, lastError: string): (o: Completion)
    requires WellFormed(w)
    ensures o.state.retptr == readStatus && o.state.sent == s.sent && o.state.fd == s.fd
    ensures readStatus != 0 ==>
              o.ret == Raised(QueryFailed(lastError)) && o.frees == 0
              && o.state.callback == s.callback && o.state.fired == s.fired
    ensures readStatus == 0 && bufferStatus != 0 ==>
              o.ret == Raised(QueryFailed(lastError)) && o.frees == 1
              && o.state.callback == s.callback && o.state.fired == s.fired
    ensures readStatus == 0 && bufferStatus == 0 ==>
              && o.ret == Returned(Materialized(w)) && o.frees == 1 && o.state.callback == None
              && o.state.fired == s.fired + (if s.callback.Some? then [Firing(s.callback.value, o.ret.value)] else [])
  {
    var s1 := s.(retptr := readStatus);
    match CheckError(readStatus, lastError)
    case Raised(e) => Completion(s1, Raised(e), 0)
    case Returned(_) =>
      if !IsOk(bufferStatus) then
        Completion(s1, Raised(QueryFailed(lastError)), 1)
      else
        var r := Materialized(w);
        var fired := if s.callback.Some? then s.fired + [Firing(s.callback.value, r)] else s.fired;
        Completion(s1.(callback := None, fired := fired), Returned(r), 1)
  }

  /** A call of `async_query` or `async_result`, with the engine's replies to it. */
  datatype Event =
    | SendEvent(query: string, proc: Option<Callback>, blk: Option<Callback>,
                status: int, conFd: int, lastError: string)
    | CompleteEvent(readStatus: int, bufferStatus: int, wire: Wire, lastError: string)

  /** Every result the engine hands out is well formed. */
  predicate EventsWellFormed(evs: seq<Event>)
  {
    forall i :: 0 <= i < |evs| ==> evs[i].CompleteEvent? ==> WellFormed(evs[i].wire)
  }

  function Step(s: ConnState, e: Event): ConnState
    requires e.CompleteEvent? ==> WellFormed(e.wire)
  {
    match e
    case SendEvent(q, p, b, st, fd, err) => Send(s, q, p, b, st, fd, err).state
    case CompleteEvent(rs, bs, w, err) => Complete(s, rs, bs, w, err).state
  }

  /** The state after a sequence of calls, whatever each of them raised. */
  function Run(s: ConnState, evs: seq<Event>): ConnState
    requires EventsWellFormed(evs)
    decreases |evs|
  {
    if evs == [] then s else Run(Step(s, evs[0]), evs[1..])
  }

  /** The descriptor returned by the first successful send of a sequence, if any. */
  function FirstSentFd(evs: seq<Event>): Option<int>
    decreases |evs|
  {
    if evs == [] then None
    else if evs[0].SendEvent? && evs[0].status == 0 then Some(evs[0].conFd)
    else FirstSentFd(evs[1..])
  }

  /** `@fd ||= ...`: the descriptor is the one of the first successful send and never changes. */
  lemma {:induction false} FdIsFirstSent(s: ConnState, evs: seq<Event>)
    requires EventsWellFormed(evs)
    ensures Run(s, evs).fd == if s.fd.Some? then s.fd else FirstSentFd(evs)
    decreases |evs|
  {
    if evs != [] {
      assert EventsWellFormed(evs[1..]) by {
        forall i | 0 <= i < |evs[1..]| ensures evs[1..][i] == evs[i + 1] { }
      }
      FdIsFirstSent(Step(s, evs[0]), evs[1..]);
    }
  }

  /** The number of successful sends that stored a callback. */
  function Armed(evs: seq<Event>): nat
    decreases |evs|
  {
    if evs == [] then 0
    else (if evs[0].SendEvent? && evs[0].status == 0 && Pick(evs[0].proc, evs[0].blk).Some? then 1 else 0)
         + Armed(evs[1..])
  }

  function Pending(s: ConnState): nat
  {
    if s.callback.Some? then 1 else 0
  }

  /**
   * Callbacks only fire out of `@callback` and each stored callback fires at
   * most once: the calls made plus the one still stored never exceed the
   * callbacks stored by successful sends, and past calls are never undone.
   */
  lemma {:induction false} FiresAtMostOnce(s: ConnState, evs: seq<Event>)
    requires EventsWellFormed(evs)
    ensures s.fired <= Run(s, evs).fired
    ensures |Run(s, evs).fired| + Pending(Run(s, evs)) <= |s.fired| + Pending(s) + Armed(evs)
    decreases |evs|
  {
    if evs != [] {
      assert EventsWellFormed(evs[1..]) by {
        forall i | 0 <= i < |evs[1..]| ensures evs[1..][i] == evs[i + 1] { }
      }
      FiresAtMostOnce(Step(s, evs[0]), evs[1..]);
    }
  }

  /** A successful `query` fires the callback it was given with its own Result, then clears it. */
  lemma QueryFiresOwnCallback(s: ConnState, query: string, proc: Option<Callback>, blk: Option<Callback>,
                              conFd: int, w: Wire, sendError: string, readError: string)
    requires WellFormed(w)
    ensures var c := Complete(Send(s, query, Pick(proc, blk), None, 0, conFd, sendError).state, 0, 0, w, readError);
            && c.ret == Returned(Materialized(w))
            && c.state.callback == None
            && c.state.fired == s.fired + (if Pick(proc, blk).Some? then [Firing(Pick(proc, blk).value, Materialized(w))] else [])
  {
  }

  class Connection {
    const settings: Settings
    var callback: Option<Callback>
    var fd: Option<int>
    var retptr: int
    ghost var sent: seq<string>
    ghost var fired: seq<Firing>

    ghost function State(): ConnState
      reads this
    {
      ConnState(callback, fd, retptr, sent, fired)
    }

    constructor (settings: Settings)
      ensures this.settings == settings && State() == Initial
    {
      this.settings := settings;
      callback, fd, retptr, sent, fired := None, None, 0, [], [];
    }

    /** `Connection.new`: raises where `Configure` does, else a connection in its initial state. */
    static method Open(host: string, user: string, pass: string, db: Option<string>,
                       opts: OptsArg, drizzle: Option<ClientHandle>) returns (r: Raises<Connection>)
      ensures r.Returned? <==> Configure(host, user, pass, db, opts, drizzle).Returned?
      ensures r.Raised? ==> r.error == Configure(host, user, pass, db, opts, drizzle).error
      ensures r.Returned? ==>
                fresh(r.value) && r.value.settings == Configure(host, user, pass, db, opts, drizzle).value
                && r.value.State() == Initial && (r.value.FromPool() <==> drizzle.Some?)
    {
      match Configure(host, user, pass, db, opts, drizzle)
      case Raised(e) =>
        r := Raised(e);
      case Returned(settings) =>
        var c := new Connection(settings);
        r := Returned(c);
    }

    /** `from_pool?` */
    function FromPool(): (b: bool)
      ensures b == settings.fromPool
    {
      settings.fromPool
    }

    /** `async_query`, on the engine's status and descriptor. */
    method AsyncQuery(query: string, proc: Option<Callback>, blk: Option<Callback>,
                      status: int, conFd: int, lastError: string) returns (ret: Raises<int>)
      modifies this
      ensures Sent(State(), ret) == Send(old(State()), query, proc, blk, status, conFd, lastError)
    {
      var chosen := Pick(proc, blk);
      sent := sent + [query];
      retptr := status;
      var check := CheckError(retptr, lastError);
      if check.Raised? {
        ret := Raised(check.error);
        return;
      }
      callback := chosen;
      if fd.None? {
        fd := Some(conFd);
      }
      ret := Returned(fd.value);
    }

    /** `async_result`, on the handle `result_read` produced and the engine's two statuses. */
    method AsyncResult(handle: ResultHandle, readStatus: int, bufferStatus: int, lastError: string)
      returns (ret: Raises<Result>)
      requires handle.Valid() && handle.columnCursor == 0 && handle.rowCursor == 0
      requires WellFormed(handle.wire)
      modifies this, handle
      ensures var c := Complete(old(State()), readStatus, bufferStatus, handle.wire, lastError);
              State() == c.state && ret == c.ret && handle.freed == old(handle.freed) + c.frees
    ensures readStatus == 0 && bufferStatus == 0 ==>
              handle.Valid() && handle.columnCursor == |handle.wire.columns| && handle.rowCursor == |handle.wire.rows|
    ensures readStatus != 0 || bufferStatus != 0 ==> handle.columnCursor == 0 && handle.rowCursor == 0
    {
      retptr := readStatus;
      var check := CheckError(retptr, lastError);
      if check.Raised? {
        ret := Raised(check.error);
        return;
      }
      if !IsOk(bufferStatus) {
        handle.Free();
        ret := Raised(QueryFailed(lastError));
        return;
      }
      assert Unread(handle.wire, 0, 0) == handle.wire;
      var r := Materialize(handle);
      if callback.Some? {
        fired := fired + [Firing(callback.value, r)];
      }
      callback := None;
      ret := Returned(r);
    }

    /** `query`: `async_query` with `proc ||= blk`, then `async_result`; an exception from either propagates. */
    method Query(query: string, proc: Option<Callback>, blk: Option<Callback>,
                 sendStatus: int, conFd: int, sendError: string,
                 handle: ResultHandle, readStatus: int, bufferStatus: int, readError: string)
      returns (ret: Raises<Result>)
      requires handle.Valid() && handle.columnCursor == 0 && handle.rowCursor == 0
      requires WellFormed(handle.wire)
      modifies this, handle
      ensures var o := Send(old(State()), query, Pick(proc, blk), None, sendStatus, conFd, sendError);
              if o.ret.Raised? then
                State() == o.state && ret == Raised(o.ret.error) && handle.freed == old(handle.freed)
              else
                var c := Complete(o.state, readStatus, bufferStatus, handle.wire, readError);
                State() == c.state && ret == c.ret && handle.freed == old(handle.freed) + c.frees
    ensures sendStatus == 0 && readStatus == 0 && bufferStatus == 0 ==>
              handle.Valid() && handle.columnCursor == |handle.wire.columns| && handle.rowCursor == |handle.wire.rows|
    ensures sendStatus != 0 || readStatus != 0 || bufferStatus != 0 ==>
              handle.columnCursor == 0 && handle.rowCursor == 0
    {
      var sendRet := AsyncQuery(query, Pick(proc, blk), None, sendStatus, conFd, sendError);
      if sendRet.Raised? {
        ret := Raised(sendRet.error);
        return;
      }
      ret := AsyncResult(handle, readStatus, bufferStatus, readError);
    }
  }
}
